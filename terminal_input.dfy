/** The input line of the split terminal, `src/components/TerminalInput.tsx`.
    It owns the input buffer and its width; the history, the history cursor
    (counted from the START of the history, with `|history|` meaning "not
    browsing"), the output list and the theme belong to the parent, here the
    Host of CommandHandler. */
module TerminalInput {
  import opened Text
  import opened Recall
  import opened CommandHandler

  /** The cursor invariant the three keys keep. */
  predicate InRange(h: seq<string>, index: int) {
    0 <= index <= |h|
  }

  /** The width of the input box: the buffer's `length` in UTF-16 code
      units, but at least one. */
  function Width(input: string): (w: nat)
    ensures w >= 1 && w >= Utf16Length(input)
    ensures w == 1 || w == Utf16Length(input)
  {
    if Utf16Length(input) > 1 then Utf16Length(input) else 1
  }

  /** A character outside the Basic Multilingual Plane is two code units
      wide, so an emoji alone makes the box two wide. */
  lemma {:induction false} WidthCountsCodeUnits()
    ensures Width("\U{1F600}") == 2
    ensures Width("ab") == 2 && Width("") == 1
  {
    assert "\U{1F600}"[1..] == "";
    assert "ab"[1..] == "b" && "b"[1..] == "";
  }

  /** ArrowUp: one step toward older entries, loading that entry; at the
      oldest entry (index 0) nothing changes, the buffer included. */
  function Older(h: seq<string>, st: State): (r: State)
    requires InRange(h, st.index)
    ensures InRange(h, r.index)
    ensures st.index > 0 ==> r.index == st.index - 1 && r.buffer == h[r.index]
    ensures st.index == 0 ==> r == st
  {
    if |h| > 0 && st.index > 0 then State(st.index - 1, h[st.index - 1]) else st
  }

  /** ArrowDown: one step toward newer entries, loading that entry; from the
      newest entry, or when not browsing, the cursor goes to "not browsing"
      and the buffer empties. */
  function Newer(h: seq<string>, st: State): (r: State)
    requires InRange(h, st.index)
    ensures InRange(h, r.index)
    ensures st.index < |h| - 1 ==> r.index == st.index + 1 && r.buffer == h[r.index]
    ensures st.index >= |h| - 1 ==> r == State(|h|, "")
  {
    if st.index < |h| - 1 then State(st.index + 1, h[st.index + 1]) else State(|h|, "")
  }

  /** The state after pressing ArrowUp `k` times. */
  function UpPresses(h: seq<string>, st: State, k: nat): (r: State)
    requires InRange(h, st.index)
    ensures InRange(h, r.index)
    decreases k
  {
    if k == 0 then st else UpPresses(h, Older(h, st), k - 1)
  }

  /** ArrowDown undoes ArrowUp except at the oldest entry: the cursor comes
      back, and the buffer shows the entry it came back to (or is empty when
      it came back to "not browsing"). */
  lemma {:induction false} NewerUndoesOlder(h: seq<string>, st: State)
    requires InRange(h, st.index) && st.index > 0
    ensures Newer(h, Older(h, st)).index == st.index
    ensures Newer(h, Older(h, st)).buffer == if st.index == |h| then "" else h[st.index]
  {
  }

  /** From a browsing position or "not browsing", `k` ArrowUp presses move
      `k` entries back, stopping at the oldest entry, which they load. */
  lemma {:induction false} UpPressesReach(h: seq<string>, st: State, k: nat)
    requires InRange(h, st.index) && |h| > 0 && k >= 1
    requires st.index > 0
    ensures var i := if st.index >= k then st.index - k else 0;
            UpPresses(h, st, k) == State(i, h[i])
    decreases k
  {
    if k > 1 && st.index > 1 {
      UpPressesReach(h, Older(h, st), k - 1);
    } else if k > 1 {
      StaysAtOldest(h, Older(h, st), k - 1);
    }
  }

  lemma {:induction false} StaysAtOldest(h: seq<string>, st: State, k: nat)
    requires InRange(h, st.index) && st.index == 0
    ensures UpPresses(h, st, k) == st
    decreases k
  {
    if k > 0 {
      StaysAtOldest(h, Older(h, st), k - 1);
    }
  }

  /** After a fresh command, the i-th ArrowUp (i from 1) recalls the i-th most
      recent command, and every press past the oldest recalls the oldest. */
  lemma {:induction false} RecallAfterEnter(h: seq<string>, k: nat)
    requires |h| > 0 && k >= 1
    ensures UpPresses(h, State(|h|, ""), k).buffer == h[if k <= |h| then |h| - k else 0]
  {
    UpPressesReach(h, State(|h|, ""), k);
  }

  /** The input line of the split terminal. */
  class TerminalInput {
    const host: Host
    var input: string
    var inputWidth: nat

    /** The cursor is where the parent keeps it, and the width follows the buffer. */
    ghost predicate Valid()
      reads this, host
    {
      InRange(host.history, host.historyIndex) && inputWidth == Width(input)
    }

    /** Mount: an empty buffer of width one. */
    constructor (host: Host)
      ensures this.host == host && input == "" && inputWidth == 1
    {
      this.host := host;
      input := "";
      inputWidth := 1;
    }

    /** The input's `onChange`, followed by the width effect. */
    method Change(value: string)
      modifies this
      ensures input == value && inputWidth == Width(value)
    {
      input := value;
      inputWidth := Width(input);
    }

    /** Enter. A blank line adds one bare prompt and nothing else. Otherwise
        the trimmed command is remembered, the cursor moves to "not browsing",
        the command runs, and the prompt echoing the trimmed command and the
        command's block are appended after whatever the command did to the
        output (so `clear` leaves exactly those two lines). The buffer
        empties either way. */
    method Enter()
      requires Valid()
      modifies this, host
      ensures Valid() && input == ""
      ensures Trim(old(input)) == [] ==>
                host.outputs == old(host.outputs) + [BarePrompt]
                && host.history == old(host.history) && host.historyIndex == old(host.historyIndex)
      ensures Trim(old(input)) != [] ==>
                host.history == old(host.history) + [Trim(old(input))]
                && host.historyIndex == |host.history|
      ensures var command := Trim(old(input));
              var e := if command == [] then NoEffect else EffectOf(CommandHandler.Tokens(command));
              ThemeEffectDone(host, e)
      ensures var command := Trim(old(input));
              command != [] ==>
                var args := CommandHandler.Tokens(command);
                host.outputs == (if EffectOf(args) == ClearOutputs then [] else old(host.outputs))
                                + [Prompt(command), Output(ReplyOf(args))]
    {
      var command := Trim(input);
      if command != [] {
        var length := |host.history|;
        host.history := host.history + [command];
        host.historyIndex := length + 1;
        var output := ExecuteCommand(command, host);
        host.AppendOutputs([Prompt(command), Output(output)]);
      } else {
        host.AppendOutputs([BarePrompt]);
      }
      input := "";
      inputWidth := Width(input);
    }

    /** ArrowUp, as Older describes it. */
    method ArrowUp()
      requires Valid()
      modifies this, host`historyIndex
      ensures Valid()
      ensures State(host.historyIndex, input) == Older(host.history, State(old(host.historyIndex), old(input)))
    {
      if |host.history| > 0 && host.historyIndex > 0 {
        var newIndex := host.historyIndex - 1;
        host.historyIndex := newIndex;
        input := host.history[newIndex];
      }
      inputWidth := Width(input);
    }

    /** ArrowDown, as Newer describes it. */
    method ArrowDown()
      requires Valid()
      modifies this, host`historyIndex
      ensures Valid()
      ensures State(host.historyIndex, input) == Newer(host.history, State(old(host.historyIndex), old(input)))
    {
      if host.historyIndex < |host.history| - 1 {
        var newIndex := host.historyIndex + 1;
        host.historyIndex := newIndex;
        input := host.history[newIndex];
      } else {
        host.historyIndex := |host.history|;
        input := "";
      }
      inputWidth := Width(input);
    }
  }
}
