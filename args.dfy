/**
 * The option scanner `parseArgs` as a specification: `Step` is one turn of
 * its loop, `Scan` runs the loop from a token position, `Parse` runs it from
 * the initial settings.
 */
module Args {
  import opened Wrappers
  import opened FontStyle
  import opened OutputFormat
  import opened Settings

  /** The labels of the scanner's `switch`; `Plain` is its `default`. */
  datatype Flag =
    | TextFlag | NameFlag | FamilyFlag | WeightFlag | BoldFlag | PostureFlag | ItalicFlag
    | SizeFlag | FgColorFlag | BgColorFlag | UnderlineFlag | OutputFlag | ShowFlag
    | FamiliesFlag | NamesFlag | NamesInFlag | HelpFlag
    | Plain

  /** The `switch` on one token: exact string comparison with each label. */
  const Labels: seq<(string, Flag)> := [
    ("-t", TextFlag), ("--text", TextFlag), ("-n", NameFlag), ("--name", NameFlag),
    ("-f", FamilyFlag), ("--family", FamilyFlag), ("-w", WeightFlag), ("--weight", WeightFlag),
    ("--bold", BoldFlag), ("-p", PostureFlag), ("--posture", PostureFlag), ("--italic", ItalicFlag),
    ("-s", SizeFlag), ("--size", SizeFlag), ("--fgColor", FgColorFlag), ("--bgColor", BgColorFlag),
    ("--underline", UnderlineFlag), ("-o", OutputFlag), ("--output", OutputFlag), ("--show", ShowFlag),
    ("--families", FamiliesFlag), ("--names", NamesFlag), ("--names-in", NamesInFlag), ("--help", HelpFlag)]

  function Lookup(table: seq<(string, Flag)>, token: string): Flag {
    if table == [] then Plain
    else if table[0].0 == token then table[0].1
    else Lookup(table[1..], token)
  }

  function Classify(token: string): Flag {
    Lookup(Labels, token)
  }

  /** The cases that read `args[++i]`. */
  predicate TakesValue(f: Flag) {
    match f
    case TextFlag | NameFlag | FamilyFlag | WeightFlag | PostureFlag | SizeFlag
       | FgColorFlag | BgColorFlag | OutputFlag | NamesInFlag => true
    case _ => false
  }

  /** The cases that list something or print help and return false. */
  predicate IsQuery(f: Flag) {
    match f
    case FamiliesFlag | NamesFlag | NamesInFlag | HelpFlag => true
    case _ => false
  }

  /** How many tokens one case consumes. */
  function Width(f: Flag): nat {
    if TakesValue(f) then 2 else 1
  }

  /**
   * The foreign parsers the scanner calls: whether `Double.valueOf` and
   * `Color.valueOf` accept a token (each throws on the tokens it rejects).
   */
  datatype Foreign = Foreign(acceptsNumber: string -> bool, acceptsColor: string -> bool)

  /** The exceptions that escape `parseArgs`. */
  datatype ArgError =
    | MissingValue(flag: string)          // `args[++i]` past the end
    | UnknownWeight(token: string)        // FontWeight.valueOf rejects
    | UnknownPosture(token: string)       // FontPosture.valueOf rejects
    | BadNumber(token: string)            // Double.valueOf rejects
    | BadColor(token: string)             // Color.valueOf rejects
    | UnknownOutputFormat(path: string)   // "Unknown output file format"

  /** The listing or help text the scanner prints before returning false. */
  datatype Query = ListFamilies | ListNames | ListNamesIn(family: string) | ShowHelp

  /** `Ready` is `parseArgs` returning true; `Queried` is returning false. */
  datatype Status = Ready | Queried(query: Query) | Failed(error: ArgError)

  /** How the scan ended, with the fields as they stand at that point. */
  datatype Parsed = Parsed(status: Status, config: Config)

  /** The value token of a value-taking case at `h`; a plain token is its own value. */
  function ValueAt(tokens: seq<string>, h: nat): string
    requires h < |tokens|
  {
    if TakesValue(Classify(tokens[h])) && h + 1 < |tokens| then tokens[h + 1] else tokens[h]
  }

  /** Whether the value given to case `f` is one its parser takes. */
  predicate ValueAccepted(f: Flag, v: string, foreign: Foreign) {
    match f
    case WeightFlag => ParseWeight(v).Some?
    case PostureFlag => ParsePosture(v).Some?
    case SizeFlag => foreign.acceptsNumber(v)
    case FgColorFlag | BgColorFlag => foreign.acceptsColor(v)
    case OutputFlag => FormatName(v).Some?
    case _ => true
  }

  /**
   * The token at `h` lets the loop go on: it is not a query, and if it takes
   * a value, the value is there and its parser takes it.
   */
  predicate Acceptable(tokens: seq<string>, h: nat, foreign: Foreign)
    requires h < |tokens|
  {
    var f := Classify(tokens[h]);
    !IsQuery(f) && (TakesValue(f) ==> h + 1 < |tokens| && ValueAccepted(f, tokens[h + 1], foreign))
  }

  /** What one case of the `switch` does: go on with new fields, or leave the loop. */
  datatype CaseResult = Proceed(config: Config) | Exit(outcome: Parsed)

  /** What one turn of the loop does: go on at position `next`, or leave the loop. */
  datatype StepResult = Continue(next: nat, config: Config) | Stop(outcome: Parsed)

  /** One turn of the loop on the token at `i`, with the fields `c`. */
  function Step(tokens: seq<string>, i: nat, c: Config, foreign: Foreign): (r: StepResult)
    requires i < |tokens|
    ensures r.Continue? <==> Acceptable(tokens, i, foreign)
    ensures r.Continue? ==> r.next == i + Width(Classify(tokens[i])) <= |tokens|
    ensures r.Stop? ==> !r.outcome.status.Ready?
  {
    var f := Classify(tokens[i]);
    if TakesValue(f) && i + 1 == |tokens| then
      Stop(Parsed(Failed(MissingValue(tokens[i])), c))
    else
      match Apply(f, ValueAt(tokens, i), c, foreign)
      case Proceed(c') => Continue(i + Width(f), c')
      case Exit(outcome) => Stop(outcome)
  }

  /** The cases whose value goes through an enumeration lookup or the suffix rule. */
  predicate IsLookup(f: Flag) {
    f == WeightFlag || f == PostureFlag || f == OutputFlag
  }

  /**
   * The body of the case for `f` once its value `v` has been read. It goes
   * on exactly when `f` is no query and its parser takes `v`; it never
   * leaves the loop with the value true.
   */
  function Apply(f: Flag, v: string, c: Config, foreign: Foreign): (r: CaseResult)
    ensures r.Proceed? <==> !IsQuery(f) && ValueAccepted(f, v, foreign)
    ensures r.Exit? ==> !r.outcome.status.Ready?
  {
    if IsLookup(f) then ApplyLookup(f, v, c)
    else if TakesValue(f) then ApplyValue(f, v, c, foreign)
    else ApplySwitch(f, v, c)
  }

  /** `-w`, `-p` and `-o`. */
  function ApplyLookup(f: Flag, v: string, c: Config): CaseResult
    requires IsLookup(f)
  {
    match f
    case WeightFlag =>
      (match ParseWeight(v)
       case Some(w) => Proceed(c.(weight := w))
       case None => Exit(Parsed(Failed(UnknownWeight(v)), c)))
    case PostureFlag =>
      (match ParsePosture(v)
       case Some(p) => Proceed(c.(posture := p))
       case None => Exit(Parsed(Failed(UnknownPosture(v)), c)))
    case OutputFlag =>
      // `output` is assigned before the suffix check can throw
      (match FormatName(v)
       case Some(fmt) => Proceed(c.(output := v, formatName := fmt))
       case None => Exit(Parsed(Failed(UnknownOutputFormat(v)), c.(output := v))))
  }

  /** The other cases that read a value: stored as given, or once a foreign parser takes it. */
  function ApplyValue(f: Flag, v: string, c: Config, foreign: Foreign): CaseResult
    requires TakesValue(f) && !IsLookup(f)
  {
    match f
    case TextFlag => Proceed(c.(text := v))
    case NameFlag => Proceed(c.(name := v, isNameUsed := true))
    case FamilyFlag => Proceed(c.(family := v, isNameUsed := false))
    case SizeFlag =>
      if foreign.acceptsNumber(v) then Proceed(c.(size := v))
      else Exit(Parsed(Failed(BadNumber(v)), c))
    case FgColorFlag =>
      if foreign.acceptsColor(v) then Proceed(c.(foregroundColor := v))
      else Exit(Parsed(Failed(BadColor(v)), c))
    case BgColorFlag =>
      if foreign.acceptsColor(v) then Proceed(c.(backgroundColor := v))
      else Exit(Parsed(Failed(BadColor(v)), c))
    case NamesInFlag => Exit(Parsed(Queried(ListNamesIn(v)), c.(family := v)))
  }

  /** The cases that take no value; for `Plain`, `v` is the token itself. */
  function ApplySwitch(f: Flag, v: string, c: Config): CaseResult
    requires !TakesValue(f)
  {
    match f
    case BoldFlag => Proceed(c.(weight := Bold))
    case ItalicFlag => Proceed(c.(posture := Italic))
    case UnderlineFlag => Proceed(c.(isUnderline := true))
    case ShowFlag => Proceed(c.(isShown := true))
    case FamiliesFlag => Exit(Parsed(Queried(ListFamilies), c))
    case NamesFlag => Exit(Parsed(Queried(ListNames), c))
    case HelpFlag => Exit(Parsed(Queried(ShowHelp), c))
    case Plain => Proceed(c.(text := v))
  }

  /** The loop from position `i` with the fields `c`, to its end or its first exit. */
  function Scan(tokens: seq<string>, i: nat, c: Config, foreign: Foreign): Parsed
    requires i <= |tokens|
    decreases |tokens| - i
  {
    if i == |tokens| then Parsed(Ready, c)
    else
      match Step(tokens, i, c, foreign)
      case Continue(j, c') => Scan(tokens, j, c', foreign)
      case Stop(r) => r
  }

  /** A turn that goes on leaves the rest of the scan to the next position. */
  lemma ScanContinues(tokens: seq<string>, i: nat, c: Config, foreign: Foreign, j: nat, c': Config)
    requires i < |tokens| && Step(tokens, i, c, foreign) == Continue(j, c')
    ensures j <= |tokens| && Scan(tokens, i, c, foreign) == Scan(tokens, j, c', foreign)
  {
  }

  /** A turn that leaves the loop ends the scan with its outcome. */
  lemma ScanStops(tokens: seq<string>, i: nat, c: Config, foreign: Foreign)
    requires i < |tokens| && Step(tokens, i, c, foreign).Stop?
    ensures Scan(tokens, i, c, foreign) == Step(tokens, i, c, foreign).outcome
  {
  }

  /** `parseArgs(tokens)` on the initial fields. */
  function Parse(tokens: seq<string>, foreign: Foreign): Parsed {
    Scan(tokens, 0, Defaults(), foreign)
  }
}
