/**
 * A reference description of the fields `parseArgs` leaves when it returns
 * true: each field holds what the last argument that writes it wrote, or
 * its initial value when no argument writes it. The scanner is proved to
 * agree with it.
 */
module LastWrites {
  import opened Wrappers
  import opened FontStyle
  import opened OutputFormat
  import opened Settings
  import opened Args
  import opened ArgsProperties

  /** Every position of `hs` is a position of `tokens`. */
  predicate Within(tokens: seq<string>, hs: seq<nat>) {
    forall k :: 0 <= k < |hs| ==> hs[k] < |tokens|
  }

  /** The index in `hs` of the last position whose case is one of `fs`, or -1 when there is none. */
  function LastAt(tokens: seq<string>, hs: seq<nat>, fs: set<Flag>): (r: int)
    requires Within(tokens, hs)
    ensures -1 <= r < |hs|
    ensures r >= 0 ==> Classify(tokens[hs[r]]) in fs
    ensures forall k :: r < k < |hs| ==> Classify(tokens[hs[k]]) !in fs
    decreases |hs|
  {
    if hs == [] then -1
    else
      var q := LastAt(tokens, hs[1..], fs);
      assert forall k :: 0 < k < |hs| ==> hs[k] == hs[1..][k - 1];
      if q >= 0 then q + 1
      else if Classify(tokens[hs[0]]) in fs then 0 else -1
  }

  /** Putting a position in front moves the last writer one place on, or makes the new position the writer. */
  lemma LastAtCons(tokens: seq<string>, h: nat, rest: seq<nat>, fs: set<Flag>)
    requires h < |tokens| && Within(tokens, rest)
    ensures LastAt(tokens, [h] + rest, fs)
         == if LastAt(tokens, rest, fs) >= 0 then LastAt(tokens, rest, fs) + 1
            else if Classify(tokens[h]) in fs then 0 else -1
  {
    assert ([h] + rest)[1..] == rest;
  }

  /** The token position of the last case in `fs`, if there is one. */
  function LastHead(tokens: seq<string>, hs: seq<nat>, fs: set<Flag>): (r: Option<nat>)
    requires Within(tokens, hs)
    ensures r.Some? ==> r.value < |tokens| && Classify(tokens[r.value]) in fs
  {
    var k := LastAt(tokens, hs, fs);
    if k >= 0 then Some(hs[k]) else None
  }

  /** Putting a position in front changes the last writer only when there was none. */
  lemma LastHeadCons(tokens: seq<string>, h: nat, rest: seq<nat>, fs: set<Flag>)
    requires h < |tokens| && Within(tokens, rest)
    ensures LastHead(tokens, [h] + rest, fs)
         == if LastHead(tokens, rest, fs).Some? then LastHead(tokens, rest, fs)
            else if Classify(tokens[h]) in fs then Some(h) else None
  {
    LastAtCons(tokens, h, rest, fs);
    var q := LastAt(tokens, rest, fs);
    if q >= 0 {
      assert ([h] + rest)[q + 1] == rest[q];
    }
  }

  /** What the last position in `fs` gave as its value, or `d`. */
  function WrittenValue(tokens: seq<string>, hs: seq<nat>, fs: set<Flag>, d: string): string
    requires Within(tokens, hs)
  {
    match LastHead(tokens, hs, fs)
    case Some(h) => ValueAt(tokens, h)
    case None => d
  }

  /**
   * The weight `--bold` or `-w` at `h` sets. A token the lookup rejects ends
   * the scan, so the fallback `Normal` never reaches a scan that returns true.
   */
  function WeightAt(tokens: seq<string>, h: nat): Weight
    requires h < |tokens|
  {
    if Classify(tokens[h]) == BoldFlag then Bold else ParseWeight(ValueAt(tokens, h)).GetOr(Normal)
  }

  /** The posture `--italic` or `-p` at `h` sets, with the fallback `Regular` for a rejected token. */
  function PostureAt(tokens: seq<string>, h: nat): Posture
    requires h < |tokens|
  {
    if Classify(tokens[h]) == ItalicFlag then Italic else ParsePosture(ValueAt(tokens, h)).GetOr(Regular)
  }

  /** The format name `-o` at `h` sets, with the fallback "" for a path without a '.'. */
  function FormatAt(tokens: seq<string>, h: nat): string
    requires h < |tokens|
  {
    FormatName(ValueAt(tokens, h)).GetOr("")
  }

  function LastWeight(tokens: seq<string>, hs: seq<nat>, d: Weight): Weight
    requires Within(tokens, hs)
  {
    match LastHead(tokens, hs, {WeightFlag, BoldFlag})
    case Some(h) => WeightAt(tokens, h)
    case None => d
  }

  function LastPosture(tokens: seq<string>, hs: seq<nat>, d: Posture): Posture
    requires Within(tokens, hs)
  {
    match LastHead(tokens, hs, {PostureFlag, ItalicFlag})
    case Some(h) => PostureAt(tokens, h)
    case None => d
  }

  function LastFormat(tokens: seq<string>, hs: seq<nat>, d: string): string
    requires Within(tokens, hs)
  {
    match LastHead(tokens, hs, {OutputFlag})
    case Some(h) => FormatAt(tokens, h)
    case None => d
  }

  /** By name when the last `-n` comes after the last `-f`; `d` when there is neither. */
  function NameUsed(tokens: seq<string>, hs: seq<nat>, d: bool): bool
    requires Within(tokens, hs)
  {
    var kn := LastAt(tokens, hs, {NameFlag});
    var kf := LastAt(tokens, hs, {FamilyFlag});
    if kn == kf then d else kn > kf
  }

  /** A switch that only ever sets its field: on if it was on or if any position sets it. */
  function Switched(tokens: seq<string>, hs: seq<nat>, f: Flag, d: bool): bool
    requires Within(tokens, hs)
  {
    d || LastAt(tokens, hs, {f}) >= 0
  }

  /** The fields after the cases at `hs`, each as its last writer left it, starting from `d`. */
  function LastWritten(tokens: seq<string>, hs: seq<nat>, d: Config): Config
    requires Within(tokens, hs)
  {
    Config(
      text := WrittenValue(tokens, hs, {TextFlag, Plain}, d.text),
      isNameUsed := NameUsed(tokens, hs, d.isNameUsed),
      name := WrittenValue(tokens, hs, {NameFlag}, d.name),
      family := WrittenValue(tokens, hs, {FamilyFlag}, d.family),
      weight := LastWeight(tokens, hs, d.weight),
      posture := LastPosture(tokens, hs, d.posture),
      size := WrittenValue(tokens, hs, {SizeFlag}, d.size),
      foregroundColor := WrittenValue(tokens, hs, {FgColorFlag}, d.foregroundColor),
      backgroundColor := WrittenValue(tokens, hs, {BgColorFlag}, d.backgroundColor),
      isUnderline := Switched(tokens, hs, UnderlineFlag, d.isUnderline),
      isShown := Switched(tokens, hs, ShowFlag, d.isShown),
      output := WrittenValue(tokens, hs, {OutputFlag}, d.output),
      formatName := LastFormat(tokens, hs, d.formatName))
  }

  // ---------------------------------------------------------------------
  // One turn, field by field

  /** The fields that hold the value token as given: case `f` with value `v` writes its own, and no other. */
  predicate StoresValue(f: Flag, v: string, c: Config, c': Config) {
    && c'.text == (if f in {TextFlag, Plain} then v else c.text)
    && c'.name == (if f == NameFlag then v else c.name)
    && c'.family == (if f == FamilyFlag then v else c.family)
    && c'.size == (if f == SizeFlag then v else c.size)
    && c'.foregroundColor == (if f == FgColorFlag then v else c.foregroundColor)
    && c'.backgroundColor == (if f == BgColorFlag then v else c.backgroundColor)
    && c'.output == (if f == OutputFlag then v else c.output)
  }

  /** The boolean fields: `-n` and `-f` choose between name and family; `--underline` and `--show` switch on. */
  predicate SetsSwitches(f: Flag, c: Config, c': Config) {
    && c'.isNameUsed == (if f == NameFlag then true else if f == FamilyFlag then false else c.isNameUsed)
    && c'.isUnderline == (c.isUnderline || f == UnderlineFlag)
    && c'.isShown == (c.isShown || f == ShowFlag)
  }

  /** The fields whose value goes through a lookup or the suffix rule, or is fixed by a shorthand. */
  predicate LooksUp(f: Flag, v: string, c: Config, c': Config) {
    && c'.weight == (if f == BoldFlag then Bold else if f == WeightFlag then ParseWeight(v).GetOr(c.weight) else c.weight)
    && c'.posture == (if f == ItalicFlag then Italic else if f == PostureFlag then ParsePosture(v).GetOr(c.posture) else c.posture)
    && c'.formatName == (if f == OutputFlag then FormatName(v).GetOr(c.formatName) else c.formatName)
  }

  /** Case `f` with value `v` takes the fields from `c` to `c'`: each field it writes, and no other. */
  predicate Updates(f: Flag, v: string, c: Config, c': Config) {
    StoresValue(f, v, c, c') && SetsSwitches(f, c, c') && LooksUp(f, v, c, c')
  }

  lemma LookupUpdates(f: Flag, v: string, c: Config)
    requires IsLookup(f) && ApplyLookup(f, v, c).Proceed?
    ensures Updates(f, v, c, ApplyLookup(f, v, c).config)
  {
    match f
    case WeightFlag =>
    case PostureFlag =>
    case OutputFlag =>
  }

  lemma ValueUpdates(f: Flag, v: string, c: Config, foreign: Foreign)
    requires TakesValue(f) && !IsLookup(f) && ApplyValue(f, v, c, foreign).Proceed?
    ensures Updates(f, v, c, ApplyValue(f, v, c, foreign).config)
  {
    match f
    case TextFlag =>
    case NameFlag =>
    case FamilyFlag =>
    case SizeFlag =>
    case FgColorFlag =>
    case BgColorFlag =>
  }

  lemma SwitchUpdates(f: Flag, v: string, c: Config)
    requires !TakesValue(f) && ApplySwitch(f, v, c).Proceed?
    ensures Updates(f, v, c, ApplySwitch(f, v, c).config)
  {
    match f
    case BoldFlag =>
    case ItalicFlag =>
    case UnderlineFlag =>
    case ShowFlag =>
    case Plain =>
  }

  /** What a turn that goes on does to the fields. */
  lemma StepUpdates(tokens: seq<string>, i: nat, c: Config, foreign: Foreign)
    requires i < |tokens| && Step(tokens, i, c, foreign).Continue?
    ensures Updates(Classify(tokens[i]), ValueAt(tokens, i), c, Step(tokens, i, c, foreign).config)
  {
    var f := Classify(tokens[i]);
    var v := ValueAt(tokens, i);
    if IsLookup(f) {
      LookupUpdates(f, v, c);
    } else if TakesValue(f) {
      ValueUpdates(f, v, c, foreign);
    } else {
      SwitchUpdates(f, v, c);
    }
  }

  lemma WrittenValueCons(tokens: seq<string>, h: nat, rest: seq<nat>, fs: set<Flag>, d: string, d': string)
    requires h < |tokens| && Within(tokens, rest)
    requires d' == if Classify(tokens[h]) in fs then ValueAt(tokens, h) else d
    ensures WrittenValue(tokens, [h] + rest, fs, d) == WrittenValue(tokens, rest, fs, d')
  {
    LastHeadCons(tokens, h, rest, fs);
  }

  lemma LastWeightCons(tokens: seq<string>, h: nat, rest: seq<nat>, d: Weight, d': Weight)
    requires h < |tokens| && Within(tokens, rest)
    requires d' == if Classify(tokens[h]) in {WeightFlag, BoldFlag} then WeightAt(tokens, h) else d
    ensures LastWeight(tokens, [h] + rest, d) == LastWeight(tokens, rest, d')
  {
    LastHeadCons(tokens, h, rest, {WeightFlag, BoldFlag});
  }

  lemma LastPostureCons(tokens: seq<string>, h: nat, rest: seq<nat>, d: Posture, d': Posture)
    requires h < |tokens| && Within(tokens, rest)
    requires d' == if Classify(tokens[h]) in {PostureFlag, ItalicFlag} then PostureAt(tokens, h) else d
    ensures LastPosture(tokens, [h] + rest, d) == LastPosture(tokens, rest, d')
  {
    LastHeadCons(tokens, h, rest, {PostureFlag, ItalicFlag});
  }

  lemma LastFormatCons(tokens: seq<string>, h: nat, rest: seq<nat>, d: string, d': string)
    requires h < |tokens| && Within(tokens, rest)
    requires d' == if Classify(tokens[h]) == OutputFlag then FormatAt(tokens, h) else d
    ensures LastFormat(tokens, [h] + rest, d) == LastFormat(tokens, rest, d')
  {
    LastHeadCons(tokens, h, rest, {OutputFlag});
  }

  lemma NameUsedCons(tokens: seq<string>, h: nat, rest: seq<nat>, d: bool, d': bool)
    requires h < |tokens| && Within(tokens, rest)
    requires d' == if Classify(tokens[h]) == NameFlag then true else if Classify(tokens[h]) == FamilyFlag then false else d
    ensures NameUsed(tokens, [h] + rest, d) == NameUsed(tokens, rest, d')
  {
    LastAtCons(tokens, h, rest, {NameFlag});
    LastAtCons(tokens, h, rest, {FamilyFlag});
  }

  lemma SwitchedCons(tokens: seq<string>, h: nat, rest: seq<nat>, f: Flag, d: bool)
    requires h < |tokens| && Within(tokens, rest)
    ensures Switched(tokens, [h] + rest, f, d) == Switched(tokens, rest, f, d || Classify(tokens[h]) == f)
  {
    LastAtCons(tokens, h, rest, {f});
  }

  lemma UpdateStoredFields(tokens: seq<string>, i: nat, c: Config, c': Config, rest: seq<nat>)
    requires i < |tokens| && StoresValue(Classify(tokens[i]), ValueAt(tokens, i), c, c') && Within(tokens, rest)
    ensures var hs := [i] + rest;
      && WrittenValue(tokens, hs, {TextFlag, Plain}, c.text) == WrittenValue(tokens, rest, {TextFlag, Plain}, c'.text)
      && WrittenValue(tokens, hs, {NameFlag}, c.name) == WrittenValue(tokens, rest, {NameFlag}, c'.name)
      && WrittenValue(tokens, hs, {FamilyFlag}, c.family) == WrittenValue(tokens, rest, {FamilyFlag}, c'.family)
      && WrittenValue(tokens, hs, {SizeFlag}, c.size) == WrittenValue(tokens, rest, {SizeFlag}, c'.size)
      && WrittenValue(tokens, hs, {FgColorFlag}, c.foregroundColor) == WrittenValue(tokens, rest, {FgColorFlag}, c'.foregroundColor)
      && WrittenValue(tokens, hs, {BgColorFlag}, c.backgroundColor) == WrittenValue(tokens, rest, {BgColorFlag}, c'.backgroundColor)
      && WrittenValue(tokens, hs, {OutputFlag}, c.output) == WrittenValue(tokens, rest, {OutputFlag}, c'.output)
  {
    WrittenValueCons(tokens, i, rest, {TextFlag, Plain}, c.text, c'.text);
    WrittenValueCons(tokens, i, rest, {NameFlag}, c.name, c'.name);
    WrittenValueCons(tokens, i, rest, {FamilyFlag}, c.family, c'.family);
    WrittenValueCons(tokens, i, rest, {SizeFlag}, c.size, c'.size);
    WrittenValueCons(tokens, i, rest, {FgColorFlag}, c.foregroundColor, c'.foregroundColor);
    WrittenValueCons(tokens, i, rest, {BgColorFlag}, c.backgroundColor, c'.backgroundColor);
    WrittenValueCons(tokens, i, rest, {OutputFlag}, c.output, c'.output);
  }

  lemma UpdateSwitchFields(tokens: seq<string>, i: nat, c: Config, c': Config, rest: seq<nat>)
    requires i < |tokens| && SetsSwitches(Classify(tokens[i]), c, c') && Within(tokens, rest)
    ensures var hs := [i] + rest;
      && NameUsed(tokens, hs, c.isNameUsed) == NameUsed(tokens, rest, c'.isNameUsed)
      && Switched(tokens, hs, UnderlineFlag, c.isUnderline) == Switched(tokens, rest, UnderlineFlag, c'.isUnderline)
      && Switched(tokens, hs, ShowFlag, c.isShown) == Switched(tokens, rest, ShowFlag, c'.isShown)
  {
    NameUsedCons(tokens, i, rest, c.isNameUsed, c'.isNameUsed);
    SwitchedCons(tokens, i, rest, UnderlineFlag, c.isUnderline);
    SwitchedCons(tokens, i, rest, ShowFlag, c.isShown);
  }

  /** On a token the loop goes on from, the lookups agree with `WeightAt`, `PostureAt` and `FormatAt`. */
  lemma WeightAgrees(tokens: seq<string>, i: nat, c: Config, c': Config, foreign: Foreign)
    requires i < |tokens| && LooksUp(Classify(tokens[i]), ValueAt(tokens, i), c, c') && Acceptable(tokens, i, foreign)
    ensures c'.weight == if Classify(tokens[i]) in {WeightFlag, BoldFlag} then WeightAt(tokens, i) else c.weight
  {
    if Classify(tokens[i]) == WeightFlag {
      assert ParseWeight(ValueAt(tokens, i)).Some?;
    }
  }

  lemma PostureAgrees(tokens: seq<string>, i: nat, c: Config, c': Config, foreign: Foreign)
    requires i < |tokens| && LooksUp(Classify(tokens[i]), ValueAt(tokens, i), c, c') && Acceptable(tokens, i, foreign)
    ensures c'.posture == if Classify(tokens[i]) in {PostureFlag, ItalicFlag} then PostureAt(tokens, i) else c.posture
  {
    if Classify(tokens[i]) == PostureFlag {
      assert ParsePosture(ValueAt(tokens, i)).Some?;
    }
  }

  lemma FormatAgrees(tokens: seq<string>, i: nat, c: Config, c': Config, foreign: Foreign)
    requires i < |tokens| && LooksUp(Classify(tokens[i]), ValueAt(tokens, i), c, c') && Acceptable(tokens, i, foreign)
    ensures c'.formatName == if Classify(tokens[i]) == OutputFlag then FormatAt(tokens, i) else c.formatName
  {
    if Classify(tokens[i]) == OutputFlag {
      assert FormatName(ValueAt(tokens, i)).Some?;
    }
  }

  lemma UpdateLookedUpFields(tokens: seq<string>, i: nat, c: Config, c': Config, foreign: Foreign, rest: seq<nat>)
    requires i < |tokens| && LooksUp(Classify(tokens[i]), ValueAt(tokens, i), c, c') && Acceptable(tokens, i, foreign)
    requires Within(tokens, rest)
    ensures var hs := [i] + rest;
      && LastWeight(tokens, hs, c.weight) == LastWeight(tokens, rest, c'.weight)
      && LastPosture(tokens, hs, c.posture) == LastPosture(tokens, rest, c'.posture)
      && LastFormat(tokens, hs, c.formatName) == LastFormat(tokens, rest, c'.formatName)
  {
    WeightAgrees(tokens, i, c, c', foreign);
    PostureAgrees(tokens, i, c, c', foreign);
    FormatAgrees(tokens, i, c, c', foreign);
    LastWeightCons(tokens, i, rest, c.weight, c'.weight);
    LastPostureCons(tokens, i, rest, c.posture, c'.posture);
    LastFormatCons(tokens, i, rest, c.formatName, c'.formatName);
  }

  /** A case that writes its fields as `Updates` says hands the rest of the description its new fields. */
  lemma UpdateLastWritten(tokens: seq<string>, i: nat, c: Config, c': Config, foreign: Foreign, rest: seq<nat>)
    requires i < |tokens| && Updates(Classify(tokens[i]), ValueAt(tokens, i), c, c') && Acceptable(tokens, i, foreign)
    requires Within(tokens, rest)
    ensures LastWritten(tokens, [i] + rest, c) == LastWritten(tokens, rest, c')
  {
    UpdateStoredFields(tokens, i, c, c', rest);
    UpdateSwitchFields(tokens, i, c, c', rest);
    UpdateLookedUpFields(tokens, i, c, c', foreign, rest);
  }

  // ---------------------------------------------------------------------
  // The whole scan

  /** A scan that gets to the end leaves the fields as their last writers left them. */
  lemma {:induction false} ScanIsLastWritten(tokens: seq<string>, i: nat, c: Config, foreign: Foreign)
    requires i <= |tokens| && Scan(tokens, i, c, foreign).status.Ready?
    ensures Scan(tokens, i, c, foreign).config == LastWritten(tokens, Heads(tokens, i), c)
    decreases |tokens| - i
  {
    if i < |tokens| {
      var s := Step(tokens, i, c, foreign);
      ScanStopsNotReady(tokens, i, c, foreign);
      ScanContinues(tokens, i, c, foreign, s.next, s.config);
      ScanIsLastWritten(tokens, s.next, s.config, foreign);
      TurnLastWritten(tokens, i, c, foreign);
    }
  }

  /** One turn that stays in the loop moves the last writers of the fields by one head. */
  lemma TurnLastWritten(tokens: seq<string>, i: nat, c: Config, foreign: Foreign)
    requires i < |tokens| && Step(tokens, i, c, foreign).Continue?
    ensures var s := Step(tokens, i, c, foreign);
      LastWritten(tokens, Heads(tokens, i), c) == LastWritten(tokens, Heads(tokens, s.next), s.config)
  {
    var s := Step(tokens, i, c, foreign);
    assert Heads(tokens, i) == [i] + Heads(tokens, s.next);
    StepUpdates(tokens, i, c, foreign);
    UpdateLastWritten(tokens, i, c, s.config, foreign, Heads(tokens, s.next));
  }

  /** A scan that gets to the end took no turn that left the loop. */
  lemma ScanStopsNotReady(tokens: seq<string>, i: nat, c: Config, foreign: Foreign)
    requires i < |tokens| && Scan(tokens, i, c, foreign).status.Ready?
    ensures Step(tokens, i, c, foreign).Continue?
  {
  }

  /** When `parseArgs` returns true, each field is what its last writer wrote, or its initial value. */
  lemma ParseIsLastWritten(tokens: seq<string>, foreign: Foreign)
    requires Parse(tokens, foreign).status.Ready?
    ensures Parse(tokens, foreign).config == LastWritten(tokens, Heads(tokens, 0), Defaults())
  {
    ScanIsLastWritten(tokens, 0, Defaults(), foreign);
  }

  // ---------------------------------------------------------------------
  // What that means for the fields `main` reads

  /** A field that no argument writes keeps its initial value. */
  lemma UnwrittenKeepDefaults(tokens: seq<string>, foreign: Foreign)
    requires Parse(tokens, foreign).status.Ready?
    ensures var hs := Heads(tokens, 0);
      var c := Parse(tokens, foreign).config;
      && (LastAt(tokens, hs, {NameFlag}) < 0 ==> c.name == "System Regular")
      && (LastAt(tokens, hs, {FamilyFlag}) < 0 ==> c.family == "System")
      && (LastAt(tokens, hs, {NameFlag}) < 0 && LastAt(tokens, hs, {FamilyFlag}) < 0 ==> !c.isNameUsed)
      && (LastAt(tokens, hs, {SizeFlag}) < 0 ==> c.size == "13")
      && (LastAt(tokens, hs, {FgColorFlag}) < 0 ==> c.foregroundColor == "BLACK")
      && (LastAt(tokens, hs, {BgColorFlag}) < 0 ==> c.backgroundColor == "WHITE")
      && (LastAt(tokens, hs, {OutputFlag}) < 0 ==> c.output == "out.png" && c.formatName == "png")
  {
    ParseIsLastWritten(tokens, foreign);
  }

  /** The last `-t`, `--text` or plain token is the text; "Hello, world!" if there is none. */
  lemma LastTextWins(tokens: seq<string>, foreign: Foreign)
    requires Parse(tokens, foreign).status.Ready?
    ensures var hs := Heads(tokens, 0);
      var k := LastAt(tokens, hs, {TextFlag, Plain});
      Parse(tokens, foreign).config.text == if k >= 0 then ValueAt(tokens, hs[k]) else "Hello, world!"
  {
    ParseIsLastWritten(tokens, foreign);
  }

  /**
   * The font is asked for by name exactly when the last `-n` comes after the
   * last `-f` (never when there is no `-n`), with the value of that `-n`.
   */
  lemma FontSelection(tokens: seq<string>, foreign: Foreign)
    requires Parse(tokens, foreign).status.Ready?
    ensures var hs := Heads(tokens, 0);
      var c := Parse(tokens, foreign).config;
      var kn := LastAt(tokens, hs, {NameFlag});
      var kf := LastAt(tokens, hs, {FamilyFlag});
      && (c.isNameUsed <==> kn > kf)
      && (kn > kf ==> FontFor(c) == ByName(ValueAt(tokens, hs[kn]), c.size))
      && (kn <= kf ==> FontFor(c) == ByFamily(if kf >= 0 then ValueAt(tokens, hs[kf]) else "System", c.weight, c.posture, c.size))
  {
    ParseIsLastWritten(tokens, foreign);
  }

  /**
   * Over heads the loop goes on from, the last `-o` keeps the output path and
   * its format name in step, starting from a pair that is in step.
   */
  lemma OutputAndFormatAgree(tokens: seq<string>, hs: seq<nat>, out: string, fmt: string, foreign: Foreign)
    requires Within(tokens, hs) && AllAcceptable(tokens, hs, foreign) && FormatName(out) == Some(fmt)
    ensures FormatName(WrittenValue(tokens, hs, {OutputFlag}, out)) == Some(LastFormat(tokens, hs, fmt))
  {
    var k := LastAt(tokens, hs, {OutputFlag});
    if k >= 0 {
      assert Acceptable(tokens, hs[k], foreign);
    }
  }

  /** When `parseArgs` returns true, the format name is what follows the last '.' of the output path. */
  lemma FormatFollowsOutput(tokens: seq<string>, foreign: Foreign)
    requires Parse(tokens, foreign).status.Ready?
    ensures var c := Parse(tokens, foreign).config; FormatName(c.output) == Some(c.formatName)
  {
    ParseIsLastWritten(tokens, foreign);
    ReadyIffAllAcceptable(tokens, 0, Defaults(), foreign);
    FormatNameExamples();
    OutputAndFormatAgree(tokens, Heads(tokens, 0), "out.png", "png", foreign);
  }

  /**
   * The last `-w` or `--bold` decides the weight: `--bold` gives BOLD, `-w`
   * the constant its value names; NORMAL when there is neither.
   */
  lemma WeightFollowsLast(tokens: seq<string>, foreign: Foreign)
    requires Parse(tokens, foreign).status.Ready?
    ensures var hs := Heads(tokens, 0);
      var k := LastAt(tokens, hs, {WeightFlag, BoldFlag});
      var c := Parse(tokens, foreign).config;
      && (k < 0 ==> c.weight == Normal)
      && (k >= 0 && Classify(tokens[hs[k]]) == BoldFlag ==> c.weight == Bold)
      && (k >= 0 && Classify(tokens[hs[k]]) == WeightFlag ==> ParseWeight(ValueAt(tokens, hs[k])) == Some(c.weight))
  {
    ParseIsLastWritten(tokens, foreign);
    ReadyIffAllAcceptable(tokens, 0, Defaults(), foreign);
    LastWeightNamed(tokens, Heads(tokens, 0), Normal, foreign);
  }

  /** Over heads the loop goes on from, `LastWeight` is what the last writer names, or `d`. */
  lemma LastWeightNamed(tokens: seq<string>, hs: seq<nat>, d: Weight, foreign: Foreign)
    requires Within(tokens, hs) && AllAcceptable(tokens, hs, foreign)
    ensures var k := LastAt(tokens, hs, {WeightFlag, BoldFlag});
      && (k < 0 ==> LastWeight(tokens, hs, d) == d)
      && (k >= 0 && Classify(tokens[hs[k]]) == BoldFlag ==> LastWeight(tokens, hs, d) == Bold)
      && (k >= 0 && Classify(tokens[hs[k]]) == WeightFlag ==> ParseWeight(ValueAt(tokens, hs[k])) == Some(LastWeight(tokens, hs, d)))
  {
    var k := LastAt(tokens, hs, {WeightFlag, BoldFlag});
    if k >= 0 {
      assert Acceptable(tokens, hs[k], foreign);
    }
  }

  /** The last `-p` or `--italic` decides the posture; REGULAR when there is neither. */
  lemma PostureFollowsLast(tokens: seq<string>, foreign: Foreign)
    requires Parse(tokens, foreign).status.Ready?
    ensures var hs := Heads(tokens, 0);
      var k := LastAt(tokens, hs, {PostureFlag, ItalicFlag});
      var c := Parse(tokens, foreign).config;
      && (k < 0 ==> c.posture == Regular)
      && (k >= 0 && Classify(tokens[hs[k]]) == ItalicFlag ==> c.posture == Italic)
      && (k >= 0 && Classify(tokens[hs[k]]) == PostureFlag ==> ParsePosture(ValueAt(tokens, hs[k])) == Some(c.posture))
  {
    ParseIsLastWritten(tokens, foreign);
    ReadyIffAllAcceptable(tokens, 0, Defaults(), foreign);
    LastPostureNamed(tokens, Heads(tokens, 0), Regular, foreign);
  }

  /** Over heads the loop goes on from, `LastPosture` is what the last writer names, or `d`. */
  lemma LastPostureNamed(tokens: seq<string>, hs: seq<nat>, d: Posture, foreign: Foreign)
    requires Within(tokens, hs) && AllAcceptable(tokens, hs, foreign)
    ensures var k := LastAt(tokens, hs, {PostureFlag, ItalicFlag});
      && (k < 0 ==> LastPosture(tokens, hs, d) == d)
      && (k >= 0 && Classify(tokens[hs[k]]) == ItalicFlag ==> LastPosture(tokens, hs, d) == Italic)
      && (k >= 0 && Classify(tokens[hs[k]]) == PostureFlag ==> ParsePosture(ValueAt(tokens, hs[k])) == Some(LastPosture(tokens, hs, d)))
  {
    var k := LastAt(tokens, hs, {PostureFlag, ItalicFlag});
    if k >= 0 {
      assert Acceptable(tokens, hs[k], foreign);
    }
  }

  /** `--underline` and `--show` only switch on: the field is on exactly when one of them occurs. */
  lemma SwitchesStick(tokens: seq<string>, foreign: Foreign)
    requires Parse(tokens, foreign).status.Ready?
    ensures var hs := Heads(tokens, 0);
      var c := Parse(tokens, foreign).config;
      && (c.isUnderline <==> exists k :: 0 <= k < |hs| && Classify(tokens[hs[k]]) == UnderlineFlag)
      && (c.isShown <==> exists k :: 0 <= k < |hs| && Classify(tokens[hs[k]]) == ShowFlag)
  {
    ParseIsLastWritten(tokens, foreign);
  }
}
