/** The self-contained terminal of `src/App.tsx`: one component that owns the
    input buffer, the output blocks, the theme, the history and a history
    cursor counted from the END of the history (-1 means "not browsing"). */
module AppTerminal {
  import opened Wrappers
  import opened Text
  import opened Themes
  import opened Recall

  /** One rendered block of the scrollback; what a block shows is left opaque
      except for the parts that depend on the session. */
  datatype Block =
    | Welcome
    | Echo(input: string)            // the prompt followed by the raw, untrimmed input
    | HelpListing(commands: seq<string>)
    | About | Skills | Projects | Experience | Achievements | Socials | Contact | Resume
    | ThemeChanged(theme: Theme)
    | ThemeUsage
    | NotFound(token: string)

  /** The `cmd` names of `availableCommands`, in the order the help block lists them. */
  const AvailableCommands: seq<string> :=
    ["about", "socials", "skills", "projects", "resume", "experience",
     "achievements", "contact", "clear", "theme"]

  /** Every selector `processCommand` has a case for. */
  const Commands: set<string> :=
    {"help", "about", "skills", "projects", "experience", "achievements",
     "socials", "contact", "resume", "clear", "theme"}

  /** The words `processCommand` sees for a typed line: `input.trim()`,
      lower-cased, split at single spaces. */
  function Tokens(input: string): (args: seq<string>)
    ensures |args| >= 1
    ensures forall k :: 0 <= k < |args| ==> ' ' !in args[k]
  {
    Split(ToLower(Trim(input)))
  }

  /** The block `processCommand` appends for the words `args`, or None for
      `clear`, which appends nothing and empties the output instead. */
  function Respond(args: seq<string>): (b: Option<Block>)
    requires |args| >= 1
    ensures b.None? <==> args[0] == "clear"
    ensures b == Some(NotFound(args[0])) <==> args[0] !in Commands
    ensures b.Some? && b.value.ThemeChanged? ==> |args| > 1 && args[1] == Name(b.value.theme)
  {
    var main := args[0];
    if main == "help" then Some(HelpListing(AvailableCommands))
    else if main == "about" then Some(About)
    else if main == "skills" then Some(Skills)
    else if main == "projects" then Some(Projects)
    else if main == "experience" then Some(Experience)
    else if main == "achievements" then Some(Achievements)
    else if main == "socials" then Some(Socials)
    else if main == "contact" then Some(Contact)
    else if main == "resume" then Some(Resume)
    else if main == "clear" then None
    else if main == "theme" then
      if |args| > 1 && Parse(args[1]).Some? then Some(ThemeChanged(Parse(args[1]).value))
      else Some(ThemeUsage)
    else Some(NotFound(main))
  }

  /** The theme after `processCommand` runs on `args`: it changes only for
      `theme <name>` with a valid second word, and then to the named theme. */
  function NextTheme(args: seq<string>, current: Theme): (t: Theme)
    requires |args| >= 1
    ensures t != current ==> args[0] == "theme" && |args| > 1 && Name(t) == args[1]
    ensures args[0] == "theme" && |args| > 1 && args[1] in Names ==> Name(t) == args[1]
  {
    if args[0] == "theme" && |args| > 1 && Parse(args[1]).Some? then Parse(args[1]).value
    else current
  }

  /** Dispatch ignores letter case: typing a line in capitals selects the same words. */
  lemma {:induction false} TokensIgnoreCase(input: string)
    ensures Tokens(ToLower(input)) == Tokens(input)
  {
    TrimLowerCommute(input);
    LowerIdempotent(Trim(input));
  }

  /** Dispatch ignores white space around the line. */
  lemma {:induction false} TokensIgnorePadding(p: string, input: string, q: string)
    requires Blank(p) && Blank(q)
    ensures Tokens(p + input + q) == Tokens(input)
  {
    TrimIgnoresPadding(p, input, q);
  }

  /** "ABOUT" runs the `about` case (while Enter echoes it as typed). */
  lemma {:induction false} UpperCaseExample()
    ensures Tokens("ABOUT") == ["about"] && Respond(Tokens("ABOUT")) == Some(About)
  {
    TrimOfTrimmed("ABOUT");
    assert ToLower("ABOUT") == "about";
    SplitWord("about");
  }

  // ----- the history cursor, counted from the end -----

  predicate InRange(h: seq<string>, index: int) {
    -1 <= index <= |h| - 1
  }

  /** The entry the cursor points at: 0 is the newest entry. */
  function Entry(h: seq<string>, index: int): string
    requires 0 <= index < |h|
  {
    h[|h| - 1 - index]
  }

  /** ArrowUp: one step toward older entries, or stay on the oldest; either way
      the buffer is (re)loaded with the entry under the cursor. With an empty
      history nothing changes. */
  function Older(h: seq<string>, st: State): (r: State)
    requires InRange(h, st.index)
    ensures InRange(h, r.index)
    ensures |h| == 0 ==> r == st
    ensures |h| > 0 ==> r.index == st.index + 1 || r.index == st.index == |h| - 1
    ensures |h| > 0 ==> r.buffer == Entry(h, r.index)
  {
    if |h| == 0 then st
    else
      var i := if st.index + 1 < |h| then st.index + 1 else |h| - 1;
      State(i, Entry(h, i))
  }

  /** ArrowDown: one step toward newer entries, loading that entry; stepping
      past the newest entry stops browsing and empties the buffer; when not
      browsing nothing changes. */
  function Newer(h: seq<string>, st: State): (r: State)
    requires InRange(h, st.index)
    ensures InRange(h, r.index)
    ensures st.index > 0 ==> r.index == st.index - 1 && r.buffer == Entry(h, r.index)
    ensures st.index == 0 ==> r == State(-1, "")
    ensures st.index == -1 ==> r == st
  {
    if st.index > 0 then State(st.index - 1, Entry(h, st.index - 1))
    else if st.index == 0 then State(-1, "")
    else st
  }

  /** The state after pressing ArrowUp `k` times. */
  function UpPresses(h: seq<string>, st: State, k: nat): (r: State)
    requires InRange(h, st.index)
    ensures InRange(h, r.index)
    decreases k
  {
    if k == 0 then st else UpPresses(h, Older(h, st), k - 1)
  }

  /** ArrowDown undoes ArrowUp except at the oldest entry: the cursor comes
      back, and the buffer shows the entry it came back to (or is empty when
      it came back to "not browsing"). */
  lemma {:induction false} NewerUndoesOlder(h: seq<string>, st: State)
    requires InRange(h, st.index) && st.index < |h| - 1
    ensures Newer(h, Older(h, st)).index == st.index
    ensures Newer(h, Older(h, st)).buffer == if st.index == -1 then "" else Entry(h, st.index)
  {
  }

  /** From any state, `k` ArrowUp presses reach the entry `k - 1` steps back
      from where they started, stopping at the oldest entry. */
  lemma {:induction false} UpPressesReach(h: seq<string>, st: State, k: nat)
    requires InRange(h, st.index) && |h| > 0 && k >= 1
    ensures var i := if st.index + k < |h| then st.index + k else |h| - 1;
            UpPresses(h, st, k) == State(i, Entry(h, i))
    decreases k
  {
    if k > 1 {
      UpPressesReach(h, Older(h, st), k - 1);
    }
  }

  /** After a fresh command, the i-th ArrowUp (i from 1) recalls the i-th most
      recent command, and every press past the oldest recalls the oldest. */
  lemma {:induction false} RecallAfterEnter(h: seq<string>, k: nat)
    requires |h| > 0 && k >= 1
    ensures UpPresses(h, State(-1, ""), k).buffer == h[if k <= |h| then |h| - k else 0]
  {
    UpPressesReach(h, State(-1, ""), k);
  }

  /** The help block lists every command `processCommand` knows except `help`
      itself, and lists nothing else. */
  lemma HelpListsCommands(c: string)
    ensures c in AvailableCommands <==> c in Commands && c != "help"
  {
  }

  /** `theme <name>` with a valid name selects that theme and confirms it;
      further words are ignored. */
  lemma {:induction false} ThemeSelects(t: Theme, rest: seq<string>, current: Theme)
    ensures var args := ["theme", Name(t)] + rest;
            Respond(args) == Some(ThemeChanged(t)) && NextTheme(args, current) == t
  {
    var args := ["theme", Name(t)] + rest;
    assert args[0] == "theme" && args[1] == Name(t);
    ParseName(t);
  }

  /** `theme` with no second word, or with one that names no theme (the empty
      word a double space leaves included), shows the usage and keeps the theme. */
  lemma {:induction false} ThemeUsageOtherwise(args: seq<string>, current: Theme)
    requires |args| >= 1 && args[0] == "theme"
    requires |args| == 1 || args[1] !in Names
    ensures Respond(args) == Some(ThemeUsage) && NextTheme(args, current) == current
  {
  }

  /** A `theme <name>` line selects the same theme however often it is run. */
  lemma ThemeIdempotent(args: seq<string>, current: Theme)
    requires |args| >= 1
    ensures NextTheme(args, NextTheme(args, current)) == NextTheme(args, current)
  {
  }

  /** The session state of the monolithic terminal. */
  class Terminal {
    var input: string
    var outputs: seq<Block>
    var theme: Theme
    var history: seq<string>
    var historyIndex: int

    ghost predicate Valid()
      reads this
    {
      InRange(history, historyIndex)
    }

    /** Mount: empty buffer and history, the welcome block, the matrix theme, not browsing. */
    constructor ()
      ensures Valid()
      ensures input == "" && outputs == [Welcome] && theme == Matrix
      ensures history == [] && historyIndex == -1
    {
      input := "";
      outputs := [Welcome];
      theme := Matrix;
      history := [];
      historyIndex := -1;
    }

    /** The input's `onChange`: the buffer takes whatever the user typed. */
    method Change(value: string)
      modifies this`input
      ensures input == value
    {
      input := value;
    }

    /** Enter. A blank line changes nothing at all (not even the buffer).
        Otherwise the trimmed line is remembered, browsing stops, the buffer
        empties, and the output grows by the echo of the raw line and the
        command's block; `clear` leaves the output empty instead. */
    method Enter()
      requires Valid()
      modifies this
      ensures Valid()
      ensures Blank(old(input)) ==> unchanged(this)
      ensures !Blank(old(input)) ==>
                history == old(history) + [Trim(old(input))] && historyIndex == -1 && input == ""
                && theme == NextTheme(Tokens(old(input)), old(theme))
                && outputs == match Respond(Tokens(old(input)))
                              case None => []
                              case Some(b) => old(outputs) + [Echo(old(input)), b]
    {
      var cmd := Trim(input);
      if cmd == [] {
        return;
      }
      history := history + [cmd];
      historyIndex := -1;
      outputs := outputs + [Echo(input)];
      ProcessCommand(ToLower(cmd));
      input := "";
    }

    /** `processCommand`: dispatch on the first space-separated word of the
        lower-cased command. */
    method ProcessCommand(cmd: string)
      modifies this`outputs, this`theme
      ensures theme == NextTheme(Split(cmd), old(theme))
      ensures outputs == match Respond(Split(cmd))
                         case None => []
                         case Some(b) => old(outputs) + [b]
    {
      var args := Split(cmd);
      var mainCmd := args[0];
      if mainCmd == "help" {
        outputs := outputs + [HelpListing(AvailableCommands)];
      } else if mainCmd == "about" {
        outputs := outputs + [About];
      } else if mainCmd == "skills" {
        outputs := outputs + [Skills];
      } else if mainCmd == "projects" {
        outputs := outputs + [Projects];
      } else if mainCmd == "experience" {
        outputs := outputs + [Experience];
      } else if mainCmd == "achievements" {
        outputs := outputs + [Achievements];
      } else if mainCmd == "socials" {
        outputs := outputs + [Socials];
      } else if mainCmd == "contact" {
        outputs := outputs + [Contact];
      } else if mainCmd == "resume" {
        outputs := outputs + [Resume];
      } else if mainCmd == "clear" {
        outputs := [];
      } else if mainCmd == "theme" {
        if |args| > 1 && args[1] in Names {
          var newTheme := Parse(args[1]).value;
          theme := newTheme;
          outputs := outputs + [ThemeChanged(newTheme)];
        } else {
          outputs := outputs + [ThemeUsage];
        }
      } else {
        outputs := outputs + [NotFound(mainCmd)];
      }
    }

    /** ArrowUp, as Older describes it. */
    method ArrowUp()
      requires Valid()
      modifies this`historyIndex, this`input
      ensures Valid()
      ensures State(historyIndex, input) == Older(history, State(old(historyIndex), old(input)))
    {
      if |history| > 0 {
        var newIndex := if historyIndex < |history| - 1 then historyIndex + 1 else historyIndex;
        historyIndex := newIndex;
        input := history[|history| - 1 - newIndex];
      }
    }

    /** ArrowDown, as Newer describes it. */
    method ArrowDown()
      requires Valid()
      modifies this`historyIndex, this`input
      ensures Valid()
      ensures State(historyIndex, input) == Newer(history, State(old(historyIndex), old(input)))
    {
      if historyIndex > 0 {
        var newIndex := historyIndex - 1;
        historyIndex := newIndex;
        input := history[|history| - 1 - newIndex];
      } else if historyIndex == 0 {
        historyIndex := -1;
        input := "";
      }
    }
  }
}
