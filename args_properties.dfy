/**
 * What the scanner promises about whole argument lists: how the labels
 * select cases, how a scan splits at a boundary, which arguments end it,
 * and which positions it reads as labels.
 */
module ArgsProperties {
  import opened FontStyle
  import opened OutputFormat
  import opened Settings
  import opened Args

  // ---------------------------------------------------------------------
  // The labels of the `switch`

  /** The table is searched front to back: the first entry with the token's text decides. */
  lemma {:induction false} LookupFirst(table: seq<(string, Flag)>, token: string, k: nat)
    requires k < |table| && table[k].0 == token
    requires forall m :: 0 <= m < k ==> table[m].0 != token
    ensures Lookup(table, token) == table[k].1
  {
    if k > 0 {
      LookupFirst(table[1..], token, k - 1);
    }
  }

  /** A token matching no entry falls to `Plain`. */
  lemma {:induction false} LookupMiss(table: seq<(string, Flag)>, token: string)
    requires forall k :: 0 <= k < |table| ==> table[k].0 != token
    ensures Lookup(table, token) == Plain
  {
    if table != [] {
      LookupMiss(table[1..], token);
    }
  }

  /** Every label selects its own case: the comparison is exact and no two labels are alike. */
  lemma ClassifyLabel(k: nat)
    requires k < |Labels|
    ensures Classify(Labels[k].0) == Labels[k].1
    ensures forall a, b :: 0 <= a < b < |Labels| ==> Labels[a].0 != Labels[b].0
  {
    assert forall a, b :: 0 <= a < b < |Labels| ==> Labels[a].0 != Labels[b].0;
    LookupFirst(Labels, Labels[k].0, k);
  }

  /** Any other token, `--` and unknown `-x` options included, is the `default` case. */
  lemma ClassifyOther(token: string)
    requires forall k :: 0 <= k < |Labels| ==> Labels[k].0 != token
    ensures Classify(token) == Plain
  {
    LookupMiss(Labels, token);
  }

  /** With no arguments `parseArgs` returns true, the fields keep their initial values, and the font is asked for by family. */
  lemma NoArgumentsKeepDefaults(foreign: Foreign)
    ensures Parse([], foreign) == Parsed(Ready, Defaults())
    ensures FontFor(Parse([], foreign).config) == ByFamily("System", Normal, Regular, "13")
  {
  }

  /** `-t` and `--text` select the same case. */
  lemma TextSpellings()
    ensures Classify("-t") == Classify("--text") == TextFlag
  {
    ClassifyLabel(0);
    ClassifyLabel(1);
  }

  /** `-o` and `--output` select the same case. */
  lemma OutputSpellings()
    ensures Classify("-o") == Classify("--output") == OutputFlag
  {
    ClassifyLabel(17);
    ClassifyLabel(18);
  }

  /** There is no `--` end-of-options marker: `--` is plain text. */
  lemma NoOptionTerminator()
    ensures Classify("--") == Plain
  {
    ClassifyOther("--");
  }

  /** An option the `switch` does not know, such as `-x`, is plain text. */
  lemma UnknownOptionIsText()
    ensures Classify("-x") == Plain
  {
    ClassifyOther("-x");
  }

  /** `--bold` does what `-w bold` does. */
  lemma BoldIsWeightBold(v: string, c: Config, foreign: Foreign)
    ensures Apply(BoldFlag, v, c, foreign) == Apply(WeightFlag, "bold", c, foreign)
  {
    WeightLookupIgnoresCase("bold", Bold);
  }

  /** `--italic` does what `-p italic` does. */
  lemma ItalicIsPostureItalic(v: string, c: Config, foreign: Foreign)
    ensures Apply(ItalicFlag, v, c, foreign) == Apply(PostureFlag, "italic", c, foreign)
  {
    PostureLookupIgnoresCase("italic", Italic);
  }

  // ---------------------------------------------------------------------
  // Splitting a scan

  /** The same turn taken `n` positions further on. */
  function Shifted(r: StepResult, n: nat): StepResult {
    match r
    case Continue(j, c) => Continue(j + n, c)
    case Stop(p) => Stop(p)
  }

  /** A turn reads only its own tokens, wherever they stand. */
  lemma StepShift(xs: seq<string>, ys: seq<string>, i: nat, c: Config, foreign: Foreign)
    requires i < |ys|
    ensures Step(xs + ys, |xs| + i, c, foreign) == Shifted(Step(ys, i, c, foreign), |xs|)
  {
    var t := xs + ys;
    assert t[|xs| + i] == ys[i];
    if i + 1 < |ys| {
      assert t[|xs| + i + 1] == ys[i + 1];
    }
  }

  /** A scan of a suffix does not depend on what comes before it. */
  lemma {:induction false} ScanShift(xs: seq<string>, ys: seq<string>, i: nat, c: Config, foreign: Foreign)
    requires i <= |ys|
    ensures Scan(xs + ys, |xs| + i, c, foreign) == Scan(ys, i, c, foreign)
    decreases |ys| - i
  {
    if i < |ys| {
      StepShift(xs, ys, i, c, foreign);
      var s := Step(ys, i, c, foreign);
      if s.Continue? {
        ScanContinues(ys, i, c, foreign, s.next, s.config);
        ScanContinues(xs + ys, |xs| + i, c, foreign, |xs| + s.next, s.config);
        ScanShift(xs, ys, s.next, s.config, foreign);
      } else {
        ScanStops(ys, i, c, foreign);
        ScanStops(xs + ys, |xs| + i, c, foreign);
      }
    }
  }

  /** A turn that goes on inside `xs` reads nothing of what follows `xs`. */
  lemma StepPrefix(xs: seq<string>, ys: seq<string>, i: nat, c: Config, foreign: Foreign)
    requires i < |xs| && Step(xs, i, c, foreign).Continue?
    ensures Step(xs + ys, i, c, foreign) == Step(xs, i, c, foreign)
  {
    var t := xs + ys;
    assert t[i] == xs[i];
    if i + 1 < |xs| {
      assert t[i + 1] == xs[i + 1];
    }
  }

  /** When a scan of `xs` gets to its end, a scan of `xs + ys` goes on with `ys` from there. */
  lemma {:induction false} ScanAppend(xs: seq<string>, ys: seq<string>, i: nat, c: Config, foreign: Foreign)
    requires i <= |xs| && Scan(xs, i, c, foreign).status.Ready?
    ensures Scan(xs + ys, i, c, foreign) == Scan(ys, 0, Scan(xs, i, c, foreign).config, foreign)
    decreases |xs| - i
  {
    if i == |xs| {
      ScanShift(xs, ys, 0, c, foreign);
    } else {
      var s := Step(xs, i, c, foreign);
      StepPrefix(xs, ys, i, c, foreign);
      ScanAppend(xs, ys, s.next, s.config, foreign);
    }
  }

  /** `parseArgs(xs + ys)` for `xs` that parse: `ys` is scanned on the fields `xs` left. */
  lemma ParseAppend(xs: seq<string>, ys: seq<string>, foreign: Foreign)
    requires Parse(xs, foreign).status.Ready?
    ensures Parse(xs + ys, foreign) == Scan(ys, 0, Parse(xs, foreign).config, foreign)
  {
    ScanAppend(xs, ys, 0, Defaults(), foreign);
  }

  // ---------------------------------------------------------------------
  // Arguments that end the scan

  /** A query label met by the scan ends it with false and the fields as they are, whatever follows. */
  lemma QueryEndsScan(q: string, ys: seq<string>, c: Config, foreign: Foreign)
    requires Classify(q) in {FamiliesFlag, NamesFlag, HelpFlag}
    ensures Scan([q] + ys, 0, c, foreign)
         == Parsed(Queried(match Classify(q) case FamiliesFlag => ListFamilies case NamesFlag => ListNames case _ => ShowHelp), c)
  {
    var t := [q] + ys;
    assert t[0] == q;
    QueryTurn(t, 0, c, foreign);
    ScanStops(t, 0, c, foreign);
  }

  /** The turn on `--families`, `--names` or `--help` leaves the loop with false and the fields as they were. */
  lemma QueryTurn(tokens: seq<string>, i: nat, c: Config, foreign: Foreign)
    requires i < |tokens| && Classify(tokens[i]) in {FamiliesFlag, NamesFlag, HelpFlag}
    ensures Step(tokens, i, c, foreign)
         == Stop(Parsed(Queried(match Classify(tokens[i]) case FamiliesFlag => ListFamilies case NamesFlag => ListNames case _ => ShowHelp), c))
  {
  }

  /** `--families`, `--names` and `--help` after arguments that parse: `parseArgs` returns false there. */
  lemma QueryStops(xs: seq<string>, q: string, ys: seq<string>, foreign: Foreign)
    requires Parse(xs, foreign).status.Ready?
    requires Classify(q) in {FamiliesFlag, NamesFlag, HelpFlag}
    ensures Parse(xs + [q] + ys, foreign)
         == Parsed(Queried(match Classify(q) case FamiliesFlag => ListFamilies case NamesFlag => ListNames case _ => ShowHelp),
                   Parse(xs, foreign).config)
  {
    assert xs + [q] + ys == xs + ([q] + ys);
    ParseAppend(xs, [q] + ys, foreign);
    QueryEndsScan(q, ys, Parse(xs, foreign).config, foreign);
  }

  /** `--names-in F` met by the scan sets the family to `F` and ends it with false, whatever follows. */
  lemma NamesInEndsScan(opt: string, family: string, ys: seq<string>, c: Config, foreign: Foreign)
    requires Classify(opt) == NamesInFlag
    ensures Scan([opt, family] + ys, 0, c, foreign) == Parsed(Queried(ListNamesIn(family)), c.(family := family))
  {
    var t := [opt, family] + ys;
    assert t[0] == opt && t[1] == family;
    ScanStops(t, 0, c, foreign);
  }

  /** `--names-in F` after arguments that parse: `parseArgs` returns false there. */
  lemma NamesInStops(xs: seq<string>, opt: string, family: string, ys: seq<string>, foreign: Foreign)
    requires Parse(xs, foreign).status.Ready? && Classify(opt) == NamesInFlag
    ensures Parse(xs + [opt, family] + ys, foreign)
         == Parsed(Queried(ListNamesIn(family)), Parse(xs, foreign).config.(family := family))
  {
    assert xs + [opt, family] + ys == xs + ([opt, family] + ys);
    ParseAppend(xs, [opt, family] + ys, foreign);
    NamesInEndsScan(opt, family, ys, Parse(xs, foreign).config, foreign);
  }

  /** A label that reads a value, last in the list, throws for the missing value. */
  lemma MissingValueFails(xs: seq<string>, opt: string, foreign: Foreign)
    requires Parse(xs, foreign).status.Ready? && TakesValue(Classify(opt))
    ensures Parse(xs + [opt], foreign) == Parsed(Failed(MissingValue(opt)), Parse(xs, foreign).config)
  {
    ParseAppend(xs, [opt], foreign);
  }

  /** An output path without '.' throws, after `output` has been assigned, whatever follows. */
  lemma OutputWithoutDotEndsScan(opt: string, path: string, ys: seq<string>, c: Config, foreign: Foreign)
    requires Classify(opt) == OutputFlag && '.' !in path
    ensures Scan([opt, path] + ys, 0, c, foreign) == Parsed(Failed(UnknownOutputFormat(path)), c.(output := path))
  {
    var t := [opt, path] + ys;
    assert t[0] == opt && t[1] == path;
    ScanStops(t, 0, c, foreign);
  }

  /** `-o` with a path without '.' after arguments that parse. */
  lemma OutputWithoutDotFails(xs: seq<string>, opt: string, path: string, ys: seq<string>, foreign: Foreign)
    requires Parse(xs, foreign).status.Ready?
    requires Classify(opt) == OutputFlag && '.' !in path
    ensures Parse(xs + [opt, path] + ys, foreign)
         == Parsed(Failed(UnknownOutputFormat(path)), Parse(xs, foreign).config.(output := path))
  {
    assert xs + [opt, path] + ys == xs + ([opt, path] + ys);
    ParseAppend(xs, [opt, path] + ys, foreign);
    OutputWithoutDotEndsScan(opt, path, ys, Parse(xs, foreign).config, foreign);
  }

  /**
   * A label that reads a value consumes exactly the next token, whatever it
   * looks like, and the scan goes on after it.
   */
  lemma ValueTurn(opt: string, v: string, ys: seq<string>, c: Config, foreign: Foreign)
    requires TakesValue(Classify(opt)) && Apply(Classify(opt), v, c, foreign).Proceed?
    ensures Scan([opt, v] + ys, 0, c, foreign) == Scan(ys, 0, Apply(Classify(opt), v, c, foreign).config, foreign)
  {
    var t := [opt, v] + ys;
    assert t[0] == opt && t[1] == v;
    var c' := Apply(Classify(opt), v, c, foreign).config;
    ScanContinues(t, 0, c, foreign, 2, c');
    ScanShift([opt, v], ys, 0, c', foreign);
  }

  /** `ValueTurn` after arguments that parse; for `-t` the value becomes the text even if it is `--help`. */
  lemma ValueIsNotScanned(xs: seq<string>, opt: string, v: string, ys: seq<string>, foreign: Foreign)
    requires Parse(xs, foreign).status.Ready? && TakesValue(Classify(opt))
    requires Apply(Classify(opt), v, Parse(xs, foreign).config, foreign).Proceed?
    ensures Parse(xs + [opt, v] + ys, foreign)
         == Scan(ys, 0, Apply(Classify(opt), v, Parse(xs, foreign).config, foreign).config, foreign)
  {
    assert xs + [opt, v] + ys == xs + ([opt, v] + ys);
    ParseAppend(xs, [opt, v] + ys, foreign);
    ValueTurn(opt, v, ys, Parse(xs, foreign).config, foreign);
  }

  // ---------------------------------------------------------------------
  // The positions read as labels

  /**
   * The positions the loop reads as labels, from `i` on: each is the last
   * one plus the tokens its case consumes; the last may want a value past
   * the end.
   */
  function Heads(tokens: seq<string>, i: nat): (hs: seq<nat>)
    requires i <= |tokens|
    ensures forall k :: 0 <= k < |hs| ==> i <= hs[k] < |tokens|
    ensures hs == [] <==> i == |tokens|
    ensures |hs| > 0 ==> hs[0] == i
    decreases |tokens| - i
  {
    if i == |tokens| then []
    else
      var j := i + Width(Classify(tokens[i]));
      if j > |tokens| then [i]
      else
        [i] + Heads(tokens, j)
  }

  /**
   * Each head is the one before it plus the tokens that case consumes, and
   * the last case's tokens reach the end of the list or want one past it.
   */
  lemma {:induction false} HeadsChain(tokens: seq<string>, i: nat)
    requires i <= |tokens|
    ensures var hs := Heads(tokens, i);
      && (forall k :: 0 <= k < |hs| - 1 ==> hs[k + 1] == hs[k] + Width(Classify(tokens[hs[k]])))
      && (|hs| > 0 ==> |tokens| <= hs[|hs| - 1] + Width(Classify(tokens[hs[|hs| - 1]])) <= |tokens| + 1)
    decreases |tokens| - i
  {
    if i < |tokens| {
      var j := i + Width(Classify(tokens[i]));
      if j <= |tokens| {
        HeadsChain(tokens, j);
        var rest := Heads(tokens, j);
        var hs := Heads(tokens, i);
        assert hs == [i] + rest;
        forall k | 0 <= k < |hs| - 1
          ensures hs[k + 1] == hs[k] + Width(Classify(tokens[hs[k]]))
        {
          if k > 0 {
            assert hs[k] == rest[k - 1] && hs[k + 1] == rest[k];
          }
        }
        if |rest| > 0 {
          assert hs[|hs| - 1] == rest[|rest| - 1];
        }
      }
    }
  }

  /** Every position in `hs` lets the loop go on. */
  predicate AllAcceptable(tokens: seq<string>, hs: seq<nat>, foreign: Foreign)
    requires forall k :: 0 <= k < |hs| ==> hs[k] < |tokens|
  {
    forall k :: 0 <= k < |hs| ==> Acceptable(tokens, hs[k], foreign)
  }

  lemma AllAcceptableCons(tokens: seq<string>, h: nat, rest: seq<nat>, foreign: Foreign)
    requires h < |tokens| && forall k :: 0 <= k < |rest| ==> rest[k] < |tokens|
    ensures AllAcceptable(tokens, [h] + rest, foreign) <==> Acceptable(tokens, h, foreign) && AllAcceptable(tokens, rest, foreign)
  {
    var hs := [h] + rest;
    if AllAcceptable(tokens, hs, foreign) {
      assert Acceptable(tokens, hs[0], foreign);
      forall k | 0 <= k < |rest|
        ensures Acceptable(tokens, rest[k], foreign)
      {
        assert hs[k + 1] == rest[k];
      }
    }
    if Acceptable(tokens, h, foreign) && AllAcceptable(tokens, rest, foreign) {
      forall k | 0 <= k < |hs|
        ensures Acceptable(tokens, hs[k], foreign)
      {
        if k > 0 {
          assert hs[k] == rest[k - 1];
        }
      }
    }
  }

  /** The scan from `i` gets to the end exactly when every label position lets it go on. */
  lemma {:induction false} ReadyIffAllAcceptable(tokens: seq<string>, i: nat, c: Config, foreign: Foreign)
    requires i <= |tokens|
    ensures Scan(tokens, i, c, foreign).status.Ready? <==> AllAcceptable(tokens, Heads(tokens, i), foreign)
    decreases |tokens| - i
  {
    if i < |tokens| {
      var s := Step(tokens, i, c, foreign);
      if s.Continue? {
        ScanContinues(tokens, i, c, foreign, s.next, s.config);
        ReadyIffAllAcceptable(tokens, s.next, s.config, foreign);
        AcceptableTurn(tokens, i, c, foreign);
      } else {
        RejectedTurn(tokens, i, c, foreign);
      }
    }
  }

  /** A turn that goes on leaves the rest of the heads to decide. */
  lemma AcceptableTurn(tokens: seq<string>, i: nat, c: Config, foreign: Foreign)
    requires i < |tokens| && Step(tokens, i, c, foreign).Continue?
    ensures AllAcceptable(tokens, Heads(tokens, i), foreign)
        <==> AllAcceptable(tokens, Heads(tokens, Step(tokens, i, c, foreign).next), foreign)
  {
    var next := Step(tokens, i, c, foreign).next;
    assert Heads(tokens, i) == [i] + Heads(tokens, next);
    AllAcceptableCons(tokens, i, Heads(tokens, next), foreign);
  }

  /** A turn that leaves the loop makes the scan end without true, at a head that is not acceptable. */
  lemma RejectedTurn(tokens: seq<string>, i: nat, c: Config, foreign: Foreign)
    requires i < |tokens| && Step(tokens, i, c, foreign).Stop?
    ensures !Scan(tokens, i, c, foreign).status.Ready?
    ensures !AllAcceptable(tokens, Heads(tokens, i), foreign)
  {
    ScanStops(tokens, i, c, foreign);
    assert Heads(tokens, i)[0] == i;
  }

  /**
   * `parseArgs` returns true only when no query was met and every token was
   * consumed: the last case's tokens end exactly at the end of the list.
   */
  lemma ReadyConsumesAll(tokens: seq<string>, foreign: Foreign)
    requires Parse(tokens, foreign).status.Ready?
    ensures var hs := Heads(tokens, 0);
      (forall k :: 0 <= k < |hs| ==> !IsQuery(Classify(tokens[hs[k]]))) &&
      (|hs| > 0 ==> hs[|hs| - 1] + Width(Classify(tokens[hs[|hs| - 1]])) == |tokens|)
  {
    ReadyIffAllAcceptable(tokens, 0, Defaults(), foreign);
    HeadsChain(tokens, 0);
    var hs := Heads(tokens, 0);
    if |hs| > 0 {
      assert Acceptable(tokens, hs[|hs| - 1], foreign);
    }
  }
}
