/**
 * The class TextToImage: its static fields, the loop of `parseArgs` that
 * assigns them, and the font selection at the start of `main`.
 */
module App {
  import opened Wrappers
  import opened FontStyle
  import opened OutputFormat
  import opened Settings
  import opened Args

  class TextToImage {
    var text: string
    var isNameUsed: bool
    var name: string
    var family: string
    var weight: Weight
    var posture: Posture
    var size: string
    var foregroundColor: string
    var backgroundColor: string
    var isUnderline: bool
    var isShown: bool
    var output: string
    var formatName: string
    /** The font chosen by `main`; `None` while the field is still null. */
    var font: Option<FontRequest>

    /** The fields the scanner assigns, as one value. */
    function State(): Config
      reads this
    {
      Config(text, isNameUsed, name, family, weight, posture, size,
             foregroundColor, backgroundColor, isUnderline, isShown, output, formatName)
    }

    /** The static initialisers. */
    constructor ()
      ensures State() == Defaults() && font == None
    {
      text := "Hello, world!";
      isNameUsed := false;
      name := "System Regular";
      family := "System";
      weight := Normal;
      posture := Regular;
      size := "13";
      foregroundColor := "BLACK";
      backgroundColor := "WHITE";
      isUnderline := false;
      isShown := false;
      output := "out.png";
      formatName := "png";
      font := None;
    }

    /**
     * `parseArgs(args)`: `Ready` for true, `Queried` for false, `Failed` for
     * the exception that escapes. The fields end as the specification says,
     * also when the loop leaves early.
     */
    method ParseArgs(args: seq<string>, foreign: Foreign) returns (status: Status)
      modifies this
      ensures Parsed(status, State()) == Scan(args, 0, old(State()), foreign)
      ensures font == old(font)
    {
      var i := 0;
      while i < |args|
        invariant 0 <= i <= |args|
        invariant Scan(args, i, State(), foreign) == Scan(args, 0, old(State()), foreign)
        invariant font == old(font)
      {
        ghost var before := State();
        var next, stop := Turn(args, i, foreign);
        if stop.Some? {
          return stop.value;
        }
        ScanContinues(args, i, before, foreign, next, State());
        i := next;
      }
      return Ready;
    }

    /**
     * The `switch` on `args[i]`, whose label is `flag`. `next` is the
     * position after the tokens the case consumed; `stop` is the value
     * returned or the exception thrown from inside the loop, if any.
     */
    method Turn(args: seq<string>, i: nat, foreign: Foreign) returns (next: nat, stop: Option<Status>)
      requires i < |args|
      modifies this
      ensures font == old(font)
      ensures Step(args, i, old(State()), foreign)
        == if stop.None? then Continue(next, State()) else Stop(Parsed(stop.value, State()))
    {
      var flag := Classify(args[i]);
      if TakesValue(flag) && i + 1 == |args| {
        // `args[++i]` past the end
        return i, Some(Failed(MissingValue(args[i])));
      }
      if IsLookup(flag) {
        next, stop := SetLookedUp(args, i, flag);
      } else if TakesValue(flag) {
        next, stop := SetValue(args, i, flag, foreign);
      } else {
        next, stop := SetSwitch(args, i, flag);
      }
    }

    /** One turn of the `switch` for the other cases that read a value. */
    method SetValue(args: seq<string>, i: nat, flag: Flag, foreign: Foreign) returns (next: nat, stop: Option<Status>)
      requires i + 1 < |args| && TakesValue(flag) && !IsLookup(flag)
      modifies this
      ensures font == old(font)
      ensures ApplyValue(flag, args[i + 1], old(State()), foreign)
          == if stop.None? then Proceed(State()) else Exit(Parsed(stop.value, State()))
      ensures stop.None? ==> next == i + 2
    {
      if flag == SizeFlag || flag == FgColorFlag || flag == BgColorFlag {
        next, stop := SetChecked(args, i, flag, foreign);
      } else {
        next, stop := SetStored(args, i, flag, foreign);
      }
    }

    /** `-t`, `-n`, `-f` and `--names-in`: the value is stored as given. */
    method SetStored(args: seq<string>, i: nat, flag: Flag, foreign: Foreign) returns (next: nat, stop: Option<Status>)
      requires i + 1 < |args|
      requires flag == TextFlag || flag == NameFlag || flag == FamilyFlag || flag == NamesInFlag
      modifies this
      ensures font == old(font)
      ensures ApplyValue(flag, args[i + 1], old(State()), foreign)
          == if stop.None? then Proceed(State()) else Exit(Parsed(stop.value, State()))
      ensures stop.None? ==> next == i + 2
    {
      next := i + 1;
      match flag {
        case TextFlag =>
          text := args[next];
        case NameFlag =>
          name := args[next];
          isNameUsed := true;
        case FamilyFlag =>
          family := args[next];
          isNameUsed := false;
        case NamesInFlag =>
          family := args[next];
          return next, Some(Queried(ListNamesIn(family)));
      }
      return next + 1, None;
    }

    /** `-s`, `--fgColor` and `--bgColor`: the value is stored once its parser takes it. */
    method SetChecked(args: seq<string>, i: nat, flag: Flag, foreign: Foreign) returns (next: nat, stop: Option<Status>)
      requires i + 1 < |args|
      requires flag == SizeFlag || flag == FgColorFlag || flag == BgColorFlag
      modifies this
      ensures font == old(font)
      ensures ApplyValue(flag, args[i + 1], old(State()), foreign)
          == if stop.None? then Proceed(State()) else Exit(Parsed(stop.value, State()))
      ensures stop.None? ==> next == i + 2
    {
      next := i + 1;
      match flag {
        case SizeFlag =>
          if !foreign.acceptsNumber(args[next]) {
            return next, Some(Failed(BadNumber(args[next])));
          }
          size := args[next];
        case FgColorFlag =>
          if !foreign.acceptsColor(args[next]) {
            return next, Some(Failed(BadColor(args[next])));
          }
          foregroundColor := args[next];
        case BgColorFlag =>
          if !foreign.acceptsColor(args[next]) {
            return next, Some(Failed(BadColor(args[next])));
          }
          backgroundColor := args[next];
      }
      return next + 1, None;
    }

    /** One turn of the `switch` for the cases whose value goes through an enumeration lookup or the suffix rule. */
    method SetLookedUp(args: seq<string>, i: nat, flag: Flag) returns (next: nat, stop: Option<Status>)
      requires i + 1 < |args| && IsLookup(flag)
      modifies this
      ensures font == old(font)
      ensures ApplyLookup(flag, args[i + 1], old(State()))
          == if stop.None? then Proceed(State()) else Exit(Parsed(stop.value, State()))
      ensures stop.None? ==> next == i + 2
    {
      if flag == WeightFlag {
        next, stop := SetWeight(args, i);
      } else if flag == PostureFlag {
        next, stop := SetPosture(args, i);
      } else {
        next, stop := SetOutput(args, i);
      }
    }

    /** `case "-w"`. */
    method SetWeight(args: seq<string>, i: nat) returns (next: nat, stop: Option<Status>)
      requires i + 1 < |args|
      modifies this
      ensures font == old(font)
      ensures ApplyLookup(WeightFlag, args[i + 1], old(State()))
          == if stop.None? then Proceed(State()) else Exit(Parsed(stop.value, State()))
      ensures stop.None? ==> next == i + 2
    {
      next := i + 1;
      var w := ParseWeight(args[next]);
      if w.None? {
        return next, Some(Failed(UnknownWeight(args[next])));
      }
      weight := w.value;
      return next + 1, None;
    }

    /** `case "-p"`. */
    method SetPosture(args: seq<string>, i: nat) returns (next: nat, stop: Option<Status>)
      requires i + 1 < |args|
      modifies this
      ensures font == old(font)
      ensures ApplyLookup(PostureFlag, args[i + 1], old(State()))
          == if stop.None? then Proceed(State()) else Exit(Parsed(stop.value, State()))
      ensures stop.None? ==> next == i + 2
    {
      next := i + 1;
      var p := ParsePosture(args[next]);
      if p.None? {
        return next, Some(Failed(UnknownPosture(args[next])));
      }
      posture := p.value;
      return next + 1, None;
    }

    /** `case "-o"`: `output` is assigned before the suffix check can throw. */
    method SetOutput(args: seq<string>, i: nat) returns (next: nat, stop: Option<Status>)
      requires i + 1 < |args|
      modifies this
      ensures font == old(font)
      ensures ApplyLookup(OutputFlag, args[i + 1], old(State()))
          == if stop.None? then Proceed(State()) else Exit(Parsed(stop.value, State()))
      ensures stop.None? ==> next == i + 2
    {
      next := i + 1;
      output := args[next];
      var index := LastIndexOf(output, '.');
      if index == -1 {
        return next, Some(Failed(UnknownOutputFormat(output)));
      }
      formatName := output[index + 1..];
      return next + 1, None;
    }

    /** One turn of the `switch` for the cases that take no value. */
    method SetSwitch(args: seq<string>, i: nat, flag: Flag) returns (next: nat, stop: Option<Status>)
      requires i < |args| && !TakesValue(flag)
      modifies this
      ensures font == old(font)
      ensures ApplySwitch(flag, args[i], old(State()))
          == if stop.None? then Proceed(State()) else Exit(Parsed(stop.value, State()))
      ensures stop.None? ==> next == i + 1
    {
      next := i;
      stop := None;
      match flag {
        case BoldFlag =>
          weight := Bold;
          return next + 1, None;
        case ItalicFlag =>
          posture := Italic;
          return next + 1, None;
        case UnderlineFlag =>
          isUnderline := true;
          return next + 1, None;
        case ShowFlag =>
          isShown := true;
          return next + 1, None;
        case FamiliesFlag =>
          return next, Some(Queried(ListFamilies));
        case NamesFlag =>
          return next, Some(Queried(ListNames));
        case HelpFlag =>
          return next, Some(Queried(ShowHelp));
        case Plain =>
          text := args[next];
          return next + 1, None;
        case _ =>
          assert false;
      }
    }

    /** `main` lines 58-62: ask for the font by name or by family. */
    method SetupFont()
      modifies this`font
      ensures font == Some(FontFor(State()))
    {
      if isNameUsed {
        font := Some(ByName(name, size));
      } else {
        font := Some(ByFamily(family, weight, posture, size));
      }
    }

    /**
     * `main` up to the font selection: parse, and pick a font only when
     * parsing returned true; a query or an error exits first.
     */
    method Prepare(args: seq<string>, foreign: Foreign) returns (status: Status)
      modifies this
      ensures Parsed(status, State()) == Scan(args, 0, old(State()), foreign)
      ensures font == if status.Ready? then Some(FontFor(State())) else old(font)
    {
      status := ParseArgs(args, foreign);
      if status.Ready? {
        SetupFont();
      }
    }
  }
}
