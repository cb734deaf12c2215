/**
 * Font weights and postures as the toolkit's enumerations name them, and the
 * lookup `FontWeight.valueOf(token.toUpperCase(Locale.ROOT))` used by the
 * `-w` and `-p` options.
 */
module FontStyle {
  import opened Wrappers

  datatype Weight = Thin | ExtraLight | Light | Normal | Medium | SemiBold | Bold | ExtraBold | Black

  datatype Posture = Regular | Italic

  /** The name of the enumeration constant for `w`. */
  function WeightName(w: Weight): string {
    match w
    case Thin => "THIN"
    case ExtraLight => "EXTRA_LIGHT"
    case Light => "LIGHT"
    case Normal => "NORMAL"
    case Medium => "MEDIUM"
    case SemiBold => "SEMI_BOLD"
    case Bold => "BOLD"
    case ExtraBold => "EXTRA_BOLD"
    case Black => "BLACK"
  }

  /** The name of the enumeration constant for `p`. */
  function PostureName(p: Posture): string {
    match p
    case Regular => "REGULAR"
    case Italic => "ITALIC"
  }

  /**
   * The full upper case of one character under the root locale, for every
   * character whose upper case is made only of ASCII characters: the ASCII
   * lower-case letters, dotless i, long s, sharp s and the Latin ligatures
   * U+FB00 to U+FB06. Every other character is kept as it is; the real
   * mapping may change it, but always to text holding a non-ASCII character,
   * which no constant name matches either way.
   */
  function UpperChar(ch: char): string {
    if 'a' <= ch <= 'z' then [(ch as int - 32) as char]
    else if ch == '\U{0131}' then "I"
    else if ch == '\U{017F}' then "S"
    else if ch == '\U{00DF}' then "SS"
    else if ch == '\U{FB00}' then "FF"
    else if ch == '\U{FB01}' then "FI"
    else if ch == '\U{FB02}' then "FL"
    else if ch == '\U{FB03}' then "FFI"
    else if ch == '\U{FB04}' then "FFL"
    else if ch == '\U{FB05}' || ch == '\U{FB06}' then "ST"
    else [ch]
  }

  /** `s.toUpperCase(Locale.ROOT)`, character by character. */
  function Upper(s: string): string {
    if s == [] then [] else UpperChar(s[0]) + Upper(s[1..])
  }

  /** The characters a constant name is made of. */
  predicate IsNameChar(ch: char) {
    'A' <= ch <= 'Z' || ch == '_'
  }

  predicate IsConstantName(s: string) {
    forall j :: 0 <= j < |s| ==> IsNameChar(s[j])
  }

  /** `FontWeight.valueOf(Upper(token))`: `None` where Java throws. */
  function ParseWeight(token: string): (r: Option<Weight>)
    ensures forall w {:trigger WeightName(w)} :: r == Some(w) <==> Upper(token) == WeightName(w)
  {
    var u := Upper(token);
    if u == WeightName(Thin) then Some(Thin)
    else if u == WeightName(ExtraLight) then Some(ExtraLight)
    else if u == WeightName(Light) then Some(Light)
    else if u == WeightName(Normal) then Some(Normal)
    else if u == WeightName(Medium) then Some(Medium)
    else if u == WeightName(SemiBold) then Some(SemiBold)
    else if u == WeightName(Bold) then Some(Bold)
    else if u == WeightName(ExtraBold) then Some(ExtraBold)
    else if u == WeightName(Black) then Some(Black)
    else None
  }

  /** `FontPosture.valueOf(Upper(token))`: `None` where Java throws. */
  function ParsePosture(token: string): (r: Option<Posture>)
    ensures forall p {:trigger PostureName(p)} :: r == Some(p) <==> Upper(token) == PostureName(p)
  {
    var u := Upper(token);
    if u == PostureName(Regular) then Some(Regular)
    else if u == PostureName(Italic) then Some(Italic)
    else None
  }

  /**
   * `t` spells `u` with any of its letters possibly in ASCII lower case.
   */
  predicate SameIgnoringAsciiCase(t: string, u: string) {
    |t| == |u| &&
    forall j :: 0 <= j < |t| ==>
      t[j] == u[j] || ('A' <= u[j] <= 'Z' && t[j] as int == u[j] as int + 32)
  }

  /** Upper-casing any case variant of a constant name gives the name. */
  lemma {:induction false} UpperOfCaseVariant(t: string, u: string)
    requires IsConstantName(u)
    requires SameIgnoringAsciiCase(t, u)
    ensures Upper(t) == u
  {
    if t != [] {
      assert UpperChar(t[0]) == [u[0]];
      assert SameIgnoringAsciiCase(t[1..], u[1..]) by {
        forall j | 0 <= j < |t[1..]|
          ensures t[1..][j] == u[1..][j] || ('A' <= u[1..][j] <= 'Z' && t[1..][j] as int == u[1..][j] as int + 32)
        {
          assert t[1..][j] == t[j + 1] && u[1..][j] == u[j + 1];
        }
      }
      assert IsConstantName(u[1..]) by {
        forall j | 0 <= j < |u[1..]| ensures IsNameChar(u[1..][j]) {
          assert u[1..][j] == u[j + 1];
        }
      }
      UpperOfCaseVariant(t[1..], u[1..]);
      assert u == [u[0]] + u[1..];
    }
  }

  lemma WeightNamesAreConstantNames(w: Weight)
    ensures IsConstantName(WeightName(w))
  {
  }

  lemma PostureNamesAreConstantNames(p: Posture)
    ensures IsConstantName(PostureName(p))
  {
  }

  /** `-w` accepts every weight name in any mix of ASCII cases. */
  lemma WeightLookupIgnoresCase(token: string, w: Weight)
    requires SameIgnoringAsciiCase(token, WeightName(w))
    ensures ParseWeight(token) == Some(w)
  {
    WeightNamesAreConstantNames(w);
    UpperOfCaseVariant(token, WeightName(w));
  }

  /** `-p` accepts every posture name in any mix of ASCII cases. */
  lemma PostureLookupIgnoresCase(token: string, p: Posture)
    requires SameIgnoringAsciiCase(token, PostureName(p))
    ensures ParsePosture(token) == Some(p)
  {
    PostureNamesAreConstantNames(p);
    UpperOfCaseVariant(token, PostureName(p));
  }
}
