/** The two terminals side by side: where the monolithic one (App.tsx) and
    the split one (TerminalInput.tsx with commandHandler.ts) agree, and
    exactly where they do not. */
module Variants {
  import opened Text
  import opened Themes
  import opened Recall
  import App = AppTerminal
  import CommandHandler
  import Split = TerminalInput

  /** No ASCII capital letter. */
  predicate LowerCase(s: string) {
    forall k :: 0 <= k < |s| ==> !('A' <= s[k] <= 'Z')
  }

  lemma {:induction false} LowerOfLowerCase(s: string)
    requires LowerCase(s)
    ensures ToLower(s) == s
  {
  }

  lemma {:induction false} SplitKeepsLowerCase(s: string)
    requires LowerCase(s)
    ensures forall k :: 0 <= k < |Text.Split(s)| ==> LowerCase(Text.Split(s)[k])
    decreases |s|
  {
    if |s| > 0 {
      assert LowerCase(s[1..]) by { assert forall k :: 0 <= k < |s| - 1 ==> s[1..][k] == s[k + 1]; }
      SplitKeepsLowerCase(s[1..]);
    }
  }

  /** Both terminals dispatch on the same words for every typed line: App.tsx
      lower-cases the trimmed line, and commandHandler.ts lower-cases and
      trims again the trimmed line TerminalInput.tsx hands it. */
  lemma {:induction false} SameWords(input: string)
    ensures App.Tokens(input) == CommandHandler.Tokens(Trim(input))
  {
    TrimLowerCommute(Trim(input));
    TrimIdempotent(input);
  }

  /** For every typed line both terminals end on the same theme: a valid
      `theme <name>` selects that theme in both, and anything else changes
      the theme in neither. */
  lemma {:induction false} SameThemeSelection(input: string, current: Theme)
    ensures var e := CommandHandler.EffectOf(CommandHandler.Tokens(Trim(input)));
            App.NextTheme(App.Tokens(input), current)
              == if e.SwitchTheme? then e.theme else current
  {
    SameWords(input);
    var args := App.Tokens(input);
    assert LowerCase(ToLower(Trim(input)));
    SplitKeepsLowerCase(ToLower(Trim(input)));
    if |args| > 1 {
      LowerOfLowerCase(args[1]);
    }
  }

  /** ArrowUp in the two cursor conventions: with the split cursor at
      `|h| - 1 - a` for the monolithic cursor `a`, the cursors stay matched,
      and the buffers differ exactly when the cursor is on the oldest entry
      and the buffer holds something else (App.tsx reloads it, the split
      terminal leaves it). */
  lemma {:induction false} UpCorresponds(h: seq<string>, a: int, buffer: string)
    requires App.InRange(h, a)
    ensures var r1 := App.Older(h, State(a, buffer));
            var r2 := Split.Older(h, State(|h| - 1 - a, buffer));
            r2.index == |h| - 1 - r1.index
            && (r1.buffer == r2.buffer <==> !(|h| > 0 && a == |h| - 1 && buffer != h[0]))
  {
  }

  /** ArrowDown in the two cursor conventions: the cursors stay matched, and
      the buffers differ exactly when the user is not browsing and the buffer
      is not empty (App.tsx leaves it, the split terminal empties it). */
  lemma {:induction false} DownCorresponds(h: seq<string>, a: int, buffer: string)
    requires App.InRange(h, a)
    ensures var r1 := App.Newer(h, State(a, buffer));
            var r2 := Split.Newer(h, State(|h| - 1 - a, buffer));
            r2.index == |h| - 1 - r1.index
            && (r1.buffer == r2.buffer <==> !(a == -1 && buffer != ""))
  {
  }

  /** After any command, any number of ArrowUp presses recall the same line in
      both terminals. */
  lemma {:induction false} SameRecall(h: seq<string>, k: nat)
    ensures App.UpPresses(h, State(-1, ""), k).buffer
            == Split.UpPresses(h, State(|h|, ""), k).buffer
  {
    if |h| > 0 && k >= 1 {
      App.RecallAfterEnter(h, k);
      Split.RecallAfterEnter(h, k);
    } else if k >= 1 {
      NoHistoryNoRecall(h, k);
    }
  }

  lemma {:induction false} NoHistoryNoRecall(h: seq<string>, k: nat)
    requires h == []
    ensures App.UpPresses(h, State(-1, ""), k) == State(-1, "")
    ensures Split.UpPresses(h, State(0, ""), k) == State(0, "")
    decreases k
  {
    if k > 0 {
      NoHistoryNoRecall(h, k - 1);
    }
  }

  /** After entering "about" and then "skills", three ArrowUp presses show
      "skills", "about", "about" in both terminals. */
  lemma RecallExample()
    ensures var h := ["about", "skills"];
            [App.UpPresses(h, State(-1, ""), 1).buffer,
             App.UpPresses(h, State(-1, ""), 2).buffer,
             App.UpPresses(h, State(-1, ""), 3).buffer] == ["skills", "about", "about"]
            && [Split.UpPresses(h, State(2, ""), 1).buffer,
                Split.UpPresses(h, State(2, ""), 2).buffer,
                Split.UpPresses(h, State(2, ""), 3).buffer] == ["skills", "about", "about"]
  {
    var h := ["about", "skills"];
    App.RecallAfterEnter(h, 1);
    App.RecallAfterEnter(h, 2);
    App.RecallAfterEnter(h, 3);
    Split.RecallAfterEnter(h, 1);
    Split.RecallAfterEnter(h, 2);
    Split.RecallAfterEnter(h, 3);
  }

  /** The same three presses, driven through the monolithic terminal's key handlers. */
  method AppRecallSession() returns (shown: seq<string>)
    ensures shown == ["skills", "about", "about"]
  {
    TrimOfTrimmed("about");
    TrimOfTrimmed("skills");
    var t := new App.Terminal();
    AppEnterLine(t, "about");
    AppEnterLine(t, "skills");
    shown := AppUpThrice(t);
  }

  /** Typing an already trimmed, non-blank line and pressing Enter on the
      monolithic terminal remembers it and stops browsing. */
  method AppEnterLine(t: App.Terminal, text: string)
    requires t.Valid() && text != [] && Trim(text) == text
    modifies t
    ensures t.Valid()
    ensures t.history == old(t.history) + [text] && t.historyIndex == -1
  {
    t.Change(text);
    t.Enter();
  }

  /** Three ArrowUp presses on the monolithic terminal right after "about" and "skills". */
  method AppUpThrice(t: App.Terminal) returns (shown: seq<string>)
    requires t.Valid()
    requires t.history == ["about", "skills"] && t.historyIndex == -1
    modifies t
    ensures shown == ["skills", "about", "about"]
  {
    t.ArrowUp();
    var first := t.input;
    t.ArrowUp();
    var second := t.input;
    t.ArrowUp();
    shown := [first, second, t.input];
  }

  /** The same three presses, driven through the split terminal's key handlers. */
  method SplitRecallSession() returns (shown: seq<string>)
    ensures shown == ["skills", "about", "about"]
  {
    TrimOfTrimmed("about");
    TrimOfTrimmed("skills");
    var host := new CommandHandler.Host([], "matrix", [], 0, [], map[]);
    var line := new Split.TerminalInput(host);
    SplitEnterLine(line, "about");
    SplitEnterLine(line, "skills");
    shown := SplitUpThrice(line);
  }

  /** Typing an already trimmed, non-blank line and pressing Enter on the
      split terminal remembers it and stops browsing. */
  method SplitEnterLine(line: Split.TerminalInput, text: string)
    requires line.Valid() && text != [] && Trim(text) == text
    modifies line, line.host
    ensures line.Valid()
    ensures line.host.history == old(line.host.history) + [text]
    ensures line.host.historyIndex == |line.host.history|
  {
    line.Change(text);
    line.Enter();
  }

  /** Three ArrowUp presses on the split terminal right after "about" and "skills". */
  method SplitUpThrice(line: Split.TerminalInput) returns (shown: seq<string>)
    requires line.Valid()
    requires line.host.history == ["about", "skills"] && line.host.historyIndex == 2
    modifies line, line.host`historyIndex
    ensures shown == ["skills", "about", "about"]
  {
    line.ArrowUp();
    var first := line.input;
    line.ArrowUp();
    var second := line.input;
    line.ArrowUp();
    shown := [first, second, line.input];
  }

  /** `clear` in both terminals: the monolithic terminal ends with no output
      at all, the split terminal with the echo of `clear` and an empty
      fragment. */
  method ClearSession() returns (app: seq<App.Block>, split: seq<CommandHandler.Line>)
    ensures app == []
    ensures split == [CommandHandler.Prompt("clear"), CommandHandler.Output(CommandHandler.Fragment)]
  {
    TrimOfTrimmed("clear");
    SplitWord("clear");
    assert ToLower("clear") == "clear";

    var t := new App.Terminal();
    t.Change("clear");
    t.Enter();
    app := t.outputs;

    var host := new CommandHandler.Host([CommandHandler.BarePrompt], "matrix", [], 0, [], map[]);
    var line := new Split.TerminalInput(host);
    line.Change("clear");
    line.Enter();
    split := host.outputs;
  }
}
