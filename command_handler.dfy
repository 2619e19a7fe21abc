/** `executeCommand` of `src/utils/commandHandler.ts`, the resolver of the split
    terminal: it reads a command, returns the block to show for it, and
    performs at most one side effect, emptying the output list or switching
    the theme (which touches the root element's class list, local storage and
    the theme state). */
module CommandHandler {
  import opened Wrappers
  import opened Text
  import opened Themes

  /** What `executeCommand` returns: an empty fragment or a `div` whose text
      is Message(reply). */
  datatype Reply =
    | Fragment
    | HelpText
    | OptionValue(value: string)
    | ThemeChanged(theme: Theme)
    | ThemeUsage
    | NotFound(token: string)

  function Message(r: Reply): (m: string)
    ensures m == "" <==> r == Fragment || r == OptionValue("")
  {
    match r
    case Fragment => ""
    case HelpText => "Type a command to get started"
    case OptionValue(v) => v
    case ThemeChanged(t) => "Theme changed to " + Name(t)
    case ThemeUsage => "Usage: theme [ubuntu|matrix|arch]"
    case NotFound(token) => "Command not found: " + token + ". Type 'help' to see available commands."
  }

  /** One element of the output list the parent keeps: a prompt echoing a
      command, a bare prompt, or the block a command produced. */
  datatype Line = Prompt(command: string) | BarePrompt | Output(reply: Reply)

  /** An entry of `data.options` (its `label` is `name` here). */
  datatype Entry = Entry(name: string, about: string, value: string)

  const Options: seq<Entry> := [
    Entry("about", "To know about me", "About me content"),
    Entry("skills", "To know about my skills", "Skills content")
  ]

  /** The selectors `executeCommand` answers with something other than "not found". */
  const Known: set<string> := {"clear", "help", "theme", "about", "skills"}

  /** The side effect a command asks for; there is never more than one. */
  datatype Effect = ClearOutputs | SwitchTheme(theme: Theme) | NoEffect

  /** `command.toLowerCase().trim().split(" ")`: at least one word, and no
      word holds a space. */
  function Tokens(command: string): (args: seq<string>)
    ensures |args| >= 1
    ensures forall k :: 0 <= k < |args| ==> ' ' !in args[k]
  {
    Split(Trim(ToLower(command)))
  }

  /** `options.find(opt => opt.label.toLowerCase() === key)`: the first entry
      whose lower-cased label is `key`, or None when there is none. */
  function Find(options: seq<Entry>, key: string): (r: Option<Entry>)
    ensures r.None? <==> forall k :: 0 <= k < |options| ==> ToLower(options[k].name) != key
    ensures r.Some? ==> exists k :: 0 <= k < |options| && options[k] == r.value
                          && ToLower(r.value.name) == key
                          && forall j :: 0 <= j < k ==> ToLower(options[j].name) != key
  {
    if options == [] then None
    else if ToLower(options[0].name) == key then Some(options[0])
    else
      var r := Find(options[1..], key);
      assert r.Some? ==> exists k :: 0 <= k < |options| - 1 && options[1..][k] == r.value
                           && ToLower(r.value.name) == key
                           && forall j :: 0 <= j < k ==> ToLower(options[1..][j].name) != key;
      if r.Some? then
        var k :| 0 <= k < |options| - 1 && options[1..][k] == r.value
                 && ToLower(r.value.name) == key
                 && forall j :: 0 <= j < k ==> ToLower(options[1..][j].name) != key;
        assert options[k + 1] == r.value;
        assert forall j :: 0 <= j < k + 1 ==> ToLower(options[j].name) != key by {
          forall j | 0 <= j < k + 1 ensures ToLower(options[j].name) != key {
            if j > 0 { assert options[j] == options[1..][j - 1]; }
          }
        }
        r
      else
        assert forall k :: 0 <= k < |options| ==> ToLower(options[k].name) != key by {
          forall k | 0 <= k < |options| ensures ToLower(options[k].name) != key {
            if k > 0 { assert options[k] == options[1..][k - 1]; }
          }
        }
        r
  }

  /** The theme named by the second word (`args[1]?.toLowerCase()`), if it is
      one of the three. */
  function ThemeArgument(args: seq<string>): (r: Option<Theme>)
    ensures r.Some? <==> |args| > 1 && ToLower(args[1]) in Names
    ensures r.Some? ==> Name(r.value) == ToLower(args[1])
  {
    if |args| > 1 then Parse(ToLower(args[1])) else None
  }

  /** The block `executeCommand` returns for the words `args`. */
  function ReplyOf(args: seq<string>): (r: Reply)
    requires |args| >= 1
    ensures r == Fragment <==> args[0] == "clear"
    ensures r == HelpText <==> args[0] == "help"
    ensures r.ThemeChanged? || r == ThemeUsage <==> args[0] == "theme"
  {
    var main := args[0];
    if main == "clear" then Fragment
    else if main == "help" then HelpText
    else if main == "theme" then
      if ThemeArgument(args).Some? then ThemeChanged(ThemeArgument(args).value) else ThemeUsage
    else match Find(Options, main)
      case Some(o) => OptionValue(o.value)
      case None => NotFound(main)
  }

  /** The side effect `executeCommand` performs for the words `args`. */
  function EffectOf(args: seq<string>): (e: Effect)
    requires |args| >= 1
    ensures e == ClearOutputs <==> args[0] == "clear"
    ensures e.SwitchTheme? <==> args[0] == "theme" && ThemeArgument(args).Some?
  {
    if args[0] == "clear" then ClearOutputs
    else if args[0] == "theme" && ThemeArgument(args).Some? then SwitchTheme(ThemeArgument(args).value)
    else NoEffect
  }

  /** `classList.remove(...tokens)`. */
  function RemoveClasses(classes: seq<string>, tokens: set<string>): (r: seq<string>)
    ensures |r| <= |classes|
  {
    if classes == [] then []
    else if classes[0] in tokens then RemoveClasses(classes[1..], tokens)
    else [classes[0]] + RemoveClasses(classes[1..], tokens)
  }

  /** `classList.add(token)`: appended unless already present. */
  function AddClass(classes: seq<string>, token: string): (r: seq<string>)
    ensures classes <= r && token in r && |r| <= |classes| + 1
    ensures token in classes ==> r == classes
  {
    if token in classes then classes else classes + [token]
  }

  /** After the removal, a class is present exactly when it was present and
      is none of the removed tokens. */
  lemma {:induction false} RemoveClassesMembers(classes: seq<string>, tokens: set<string>)
    ensures forall c :: c in RemoveClasses(classes, tokens) <==> c in classes && c !in tokens
  {
    if classes != [] {
      RemoveClassesMembers(classes[1..], tokens);
      assert forall c :: c in classes <==> c == classes[0] || c in classes[1..];
    }
  }

  /** The root class list after switching to theme `t`. */
  function SwitchClasses(classes: seq<string>, t: Theme): (r: seq<string>)
    ensures Name(t) in r && |r| <= |classes| + 1
  {
    AddClass(RemoveClasses(classes, Names), Name(t))
  }

  /** The state `executeCommand` reaches: the parent's output list, history and
      theme state, the root element's class list, and local storage. */
  class Host {
    var outputs: seq<Line>
    var theme: string
    var history: seq<string>
    var historyIndex: int
    var rootClasses: seq<string>
    var storage: map<string, string>

    constructor (outputs: seq<Line>, theme: string, history: seq<string>, historyIndex: int,
                 rootClasses: seq<string>, storage: map<string, string>)
      ensures this.outputs == outputs && this.theme == theme && this.history == history
      ensures this.historyIndex == historyIndex && this.rootClasses == rootClasses
      ensures this.storage == storage
    {
      this.outputs := outputs;
      this.theme := theme;
      this.history := history;
      this.historyIndex := historyIndex;
      this.rootClasses := rootClasses;
      this.storage := storage;
    }

    /** `setOutputs(prev => [...prev, ...lines])`. */
    method AppendOutputs(lines: seq<Line>)
      modifies this`outputs
      ensures outputs == old(outputs) + lines
    {
      outputs := outputs + lines;
    }
  }

  /** The part of an effect that concerns the theme: for a switch, the theme
      state, the `theme` entry in storage and the root classes all follow the
      new theme; otherwise none of the three changes. */
  twostate predicate ThemeEffectDone(host: Host, e: Effect)
    reads host
  {
    match e
    case SwitchTheme(t) =>
      host.theme == Name(t) && host.storage == old(host.storage)["theme" := Name(t)]
      && host.rootClasses == SwitchClasses(old(host.rootClasses), t)
    case _ =>
      host.theme == old(host.theme) && host.storage == old(host.storage)
      && host.rootClasses == old(host.rootClasses)
  }

  /** `executeCommand(command, setOutputs, setTheme)`. */
  method ExecuteCommand(command: string, host: Host) returns (r: Reply)
    modifies host`outputs, host`theme, host`rootClasses, host`storage
    ensures r == ReplyOf(Tokens(command))
    ensures ThemeEffectDone(host, EffectOf(Tokens(command)))
    ensures host.outputs == if EffectOf(Tokens(command)) == ClearOutputs then [] else old(host.outputs)
  {
    var cmd := Trim(ToLower(command));
    var args := Split(cmd);
    var mainCommand := args[0];

    if mainCommand == "clear" {
      host.outputs := [];
      return Fragment;
    }

    if mainCommand == "help" {
      return HelpText;
    }

    if mainCommand == "theme" {
      if |args| > 1 {
        var newTheme := ToLower(args[1]);
        if newTheme != "" && newTheme in Names {
          var t := Parse(newTheme).value;
          host.rootClasses := RemoveClasses(host.rootClasses, Names);
          host.rootClasses := AddClass(host.rootClasses, newTheme);
          host.storage := host.storage["theme" := newTheme];
          host.theme := newTheme;
          return ThemeChanged(t);
        }
      }
      return ThemeUsage;
    }

    var option := Find(Options, mainCommand);
    if option.Some? {
      return OptionValue(option.value.value);
    }
    return NotFound(mainCommand);
  }

  // ----- what the resolver promises -----

  /** Dispatch ignores letter case: lower-casing a command first changes nothing. */
  lemma TokensIgnoreCase(command: string)
    ensures Tokens(ToLower(command)) == Tokens(command)
  {
    LowerIdempotent(command);
  }

  /** Dispatch ignores white space around the command. */
  lemma {:induction false} TokensIgnorePadding(p: string, command: string, q: string)
    requires Blank(p) && Blank(q)
    ensures Tokens(p + command + q) == Tokens(command)
  {
    LowerConcat(p + command, q);
    LowerConcat(p, command);
    LowerKeepsBlank(p);
    LowerKeepsBlank(q);
    TrimIgnoresPadding(ToLower(p), ToLower(command), ToLower(q));
  }

  /** A command is answered "not found" exactly when its selector is none of
      `clear`, `help`, `theme` and the labels of `data.options`; the reply
      then names the selector. */
  lemma {:induction false} NotFoundExactly(args: seq<string>)
    requires |args| >= 1
    ensures ReplyOf(args).NotFound? <==> args[0] !in Known
    ensures ReplyOf(args).NotFound? ==> ReplyOf(args).token == args[0]
  {
    var main := args[0];
    assert ToLower("about") == "about" && ToLower("skills") == "skills";
    if main == "about" {
      assert Find(Options, main) == Some(Options[0]);
    } else if main == "skills" {
      assert Find(Options, main) == Some(Options[1]);
    }
  }

  /** `about` and `skills` answer with their `data.options` value. */
  lemma {:induction false} OptionReplies()
    ensures ReplyOf(["about"]) == OptionValue("About me content")
    ensures ReplyOf(["skills"]) == OptionValue("Skills content")
  {
    assert ToLower("about") == "about" && ToLower("skills") == "skills";
    assert Find(Options, "about") == Some(Options[0]);
    assert Find(Options, "skills") == Some(Options[1]);
  }

  /** The reply tells which effect happened: an empty fragment exactly when
      the output was cleared, "Theme changed to X" exactly when X was switched
      to, and every other reply comes with no effect at all. */
  lemma {:induction false} ReplyMatchesEffect(args: seq<string>)
    requires |args| >= 1
    ensures EffectOf(args) == ClearOutputs <==> ReplyOf(args) == Fragment
    ensures forall t :: EffectOf(args) == SwitchTheme(t) <==> ReplyOf(args) == ThemeChanged(t)
    ensures EffectOf(args) == NoEffect <==> !ReplyOf(args).Fragment? && !ReplyOf(args).ThemeChanged?
  {
  }

  /** An invalid or missing theme name answers with the usage text and
      touches nothing. */
  lemma {:induction false} InvalidThemeArgument(args: seq<string>)
    requires |args| >= 1 && args[0] == "theme"
    requires |args| == 1 || ToLower(args[1]) !in Names
    ensures ReplyOf(args) == ThemeUsage && EffectOf(args) == NoEffect
  {
  }

  /** Extra words after `theme <name>` are ignored. */
  lemma {:induction false} ThemeIgnoresExtraWords(name: string, rest: seq<string>)
    ensures var args := ["theme", name] + rest;
            ReplyOf(args) == ReplyOf(["theme", name]) && EffectOf(args) == EffectOf(["theme", name])
  {
    var args := ["theme", name] + rest;
    assert args[0] == "theme" && args[1] == name;
  }

  /** The theme names hold no space and no capital letter. */
  lemma {:induction false} NamePlain(t: Theme)
    ensures ' ' !in Name(t) && ToLower(Name(t)) == Name(t)
  {
    match t
    case Matrix => assert ToLower("matrix") == "matrix";
    case Ubuntu => assert ToLower("ubuntu") == "ubuntu";
    case Arch => assert ToLower("arch") == "arch";
  }

  /** `theme <name>` with a single space switches to the named theme. */
  lemma {:induction false} OneSpaceSwitches(t: Theme)
    ensures ReplyOf(Split("theme " + Name(t))) == ThemeChanged(t)
  {
    var n := Name(t);
    NamePlain(t);
    ParseName(t);
    assert Split("theme " + n) == ["theme", n] by {
      SplitWord(n);
      SplitAfterWord("theme", n);
      assert "theme" + " " + n == "theme " + n;
    }
  }

  /** Words are separated by single spaces: with two spaces the second word
      is empty, and `theme` only shows its usage text. */
  lemma {:induction false} TwoSpacesDoNotSwitch(t: Theme)
    ensures ReplyOf(Split("theme  " + Name(t))) == ThemeUsage
  {
    var n := Name(t);
    assert Split("theme  " + n) == ["theme", "", n] by {
      NamePlain(t);
      SplitWord(n);
      SplitAfterDoubleSpace("theme", n);
      assert "theme" + "  " + n == "theme  " + n;
    }
    assert ToLower("") == "";
  }

  /** After switching to theme t, t is the only one of the three theme classes
      on the root element, and every other class is kept in order. */
  lemma {:induction false} SwitchClassesExact(classes: seq<string>, t: Theme)
    ensures forall c :: c in Names ==> (c in SwitchClasses(classes, t) <==> c == Name(t))
    ensures RemoveClasses(SwitchClasses(classes, t), Names) == RemoveClasses(classes, Names)
  {
    ParseName(t);
    var kept := RemoveClasses(classes, Names);
    RemoveClassesMembers(classes, Names);
    assert Name(t) !in kept;
    assert SwitchClasses(classes, t) == kept + [Name(t)];
    RemoveOfRemoved(kept, Names);
    RemoveAppend(kept, [Name(t)], Names);
    assert RemoveClasses([Name(t)], Names) == [];
  }

  /** Switching to the same theme twice leaves the same class list, storage
      and theme as switching once. */
  lemma {:induction false} SwitchIdempotent(classes: seq<string>, storage: map<string, string>, t: Theme)
    ensures SwitchClasses(SwitchClasses(classes, t), t) == SwitchClasses(classes, t)
    ensures storage["theme" := Name(t)]["theme" := Name(t)] == storage["theme" := Name(t)]
  {
    SwitchClassesExact(classes, t);
  }

  lemma {:induction false} RemoveOfRemoved(classes: seq<string>, tokens: set<string>)
    requires forall c :: c in classes ==> c !in tokens
    ensures RemoveClasses(classes, tokens) == classes
  {
    if classes != [] {
      RemoveOfRemoved(classes[1..], tokens);
      assert [classes[0]] + classes[1..] == classes;
    }
  }

  lemma {:induction false} RemoveAppend(a: seq<string>, b: seq<string>, tokens: set<string>)
    ensures RemoveClasses(a + b, tokens) == RemoveClasses(a, tokens) + RemoveClasses(b, tokens)
  {
    if a == [] {
      assert a + b == b;
    } else {
      assert (a + b)[1..] == a[1..] + b;
      RemoveAppend(a[1..], b, tokens);
    }
  }
}
