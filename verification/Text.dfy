/** Characters and strings as the JavaScript sources use them. */
module Text {

  datatype Option<+T> = None | Some(value: T)

  /** The class `\s`, which is also the set `String.prototype.trim` removes. */
  predicate IsSpace(c: char) {
    || '\t' <= c <= '\r'
    || c == ' '
    || c == '\U{00A0}' || c == '\U{1680}'
    || '\U{2000}' <= c <= '\U{200A}'
    || c == '\U{2028}' || c == '\U{2029}'
    || c == '\U{202F}' || c == '\U{205F}' || c == '\U{3000}' || c == '\U{FEFF}'
  }

  predicate IsAsciiSpace(c: char) {
    '\t' <= c <= '\r' || c == ' '
  }

  predicate IsDigit(c: char) {
    '0' <= c <= '9'
  }

  predicate IsLower(c: char) {
    'a' <= c <= 'z'
  }

  predicate IsUpper(c: char) {
    'A' <= c <= 'Z'
  }

  predicate IsLetter(c: char) {
    IsLower(c) || IsUpper(c)
  }

  /**
   * `toUpperCase` of one character. Exact wherever the result is ASCII, including
   * the few non-ASCII characters that upper-case into ASCII; any other character
   * is kept, since a value holding it can never equal a keyword either way.
   */
  function UpperChar(c: char): string {
    if IsLower(c) then [(c as int - 32) as char]
    else if c == '\U{0131}' then "I"
    else if c == '\U{017F}' then "S"
    else if c == '\U{00DF}' then "SS"
    else if c == '\U{FB00}' then "FF"
    else if c == '\U{FB01}' then "FI"
    else if c == '\U{FB02}' then "FL"
    else if c == '\U{FB03}' then "FFI"
    else if c == '\U{FB04}' then "FFL"
    else if c == '\U{FB05}' || c == '\U{FB06}' then "ST"
    else [c]
  }

  function Upper(s: string): string {
    if s == "" then "" else UpperChar(s[0]) + Upper(s[1..])
  }

  /** `s.slice(0, n)` and `s.slice(n)` for an `n` that may lie past the end. */
  function Take<T>(s: seq<T>, n: nat): seq<T> {
    if n <= |s| then s[..n] else s
  }

  function Drop<T>(s: seq<T>, n: nat): seq<T> {
    if n <= |s| then s[n..] else []
  }

  /** The position of the first occurrence of `pattern` in `s`, as `indexOf` finds it. */
  function IndexOf(s: string, pattern: string): Option<nat> {
    if |s| < |pattern| then None
    else if pattern <= s then Some(0)
    else if s == "" then None
    else
      match IndexOf(s[1..], pattern)
      case None => None
      case Some(i) => Some(i + 1)
  }

  predicate OccursAt(s: string, pattern: string, i: nat) {
    i <= |s| && pattern <= s[i..]
  }

  lemma OccursLater(s: string, pattern: string, k: nat, j: nat)
    requires k <= |s|
    ensures OccursAt(s[k..], pattern, j) ==> OccursAt(s, pattern, k + j)
  {
    if j <= |s| - k {
      assert s[k..][j..] == s[k + j..];
    }
  }

  lemma OccursWithin(s: string, pattern: string, k: nat, j: nat)
    requires k <= |s|
    ensures OccursAt(s[..k], pattern, j) ==> OccursAt(s, pattern, j)
  {
    if j <= k && pattern <= s[..k][j..] {
      assert s[..k][j..] == s[j..k] && s[j..][..k - j] == s[j..k];
    }
  }

  lemma {:induction false} IndexOfFirst(s: string, pattern: string)
    ensures match IndexOf(s, pattern)
            case Some(i) => OccursAt(s, pattern, i) && forall j: nat | j < i :: !OccursAt(s, pattern, j)
            case None => forall j: nat :: !OccursAt(s, pattern, j)
  {
    if |pattern| <= |s| && !(pattern <= s) && s != "" {
      IndexOfFirst(s[1..], pattern);
      forall j: nat | 0 < j ensures OccursAt(s, pattern, j) == OccursAt(s[1..], pattern, j - 1) {
        if j <= |s| {
          assert s[1..][j - 1..] == s[j..];
        }
      }
      assert s[0..] == s;
    } else {
      assert s[0..] == s;
    }
  }

  /** A find that succeeds in `s` is unaffected by what follows `s`. */
  lemma {:induction false} IndexOfLocal(s: string, b: string, pattern: string)
    requires IndexOf(s, pattern).Some?
    ensures IndexOf(s + b, pattern) == IndexOf(s, pattern)
  {
    if pattern <= s {
      assert pattern <= s + b;
    } else {
      assert (s + b)[1..] == s[1..] + b;
      IndexOfLocal(s[1..], b, pattern);
      assert !(pattern <= s + b) by {
        assert (s + b)[..|pattern|] == s[..|pattern|];
      }
    }
  }

  function TrimStart(s: string): (r: string)
    ensures |r| <= |s| && r == s[|s| - |r|..]
    ensures r != "" ==> !IsSpace(r[0])
  {
    if s != "" && IsSpace(s[0]) then TrimStart(s[1..]) else s
  }

  function TrimEnd(s: string): (r: string)
    ensures r <= s
    ensures r != "" ==> !IsSpace(r[|r| - 1])
    ensures forall i | |r| <= i < |s| :: IsSpace(s[i])
  {
    if s != "" && IsSpace(s[|s| - 1]) then TrimEnd(s[..|s| - 1]) else s
  }

  function Trim(s: string): string {
    TrimEnd(TrimStart(s))
  }

  function Join(parts: seq<string>, separator: string): string {
    if |parts| == 0 then ""
    else if |parts| == 1 then parts[0]
    else parts[0] + separator + Join(parts[1..], separator)
  }

  /** Everything in `xs` once, in order of first occurrence: `[...new Set(xs)]`. */
  function Distinct(xs: seq<string>): (r: seq<string>)
    ensures forall x :: x in r <==> x in xs
    ensures forall i, j | 0 <= i < j < |r| :: r[i] != r[j]
  {
    if xs == [] then []
    else
      var front := Distinct(xs[..|xs| - 1]);
      var last := xs[|xs| - 1];
      assert xs == xs[..|xs| - 1] + [last];
      if last in front then front else front + [last]
  }

  // --- numbers as text ---

  function Digit(n: nat): char
    requires n < 10
  {
    ('0' as int + n) as char
  }

  function Decimal(n: nat): (r: string)
    ensures r != "" && forall i | 0 <= i < |r| :: IsDigit(r[i])
  {
    if n < 10 then [Digit(n)] else Decimal(n / 10) + [Digit(n % 10)]
  }

  /** The number that digits denote, read from the left. */
  function ValueOf(digits: string): nat
    requires forall i | 0 <= i < |digits| :: IsDigit(digits[i])
  {
    if digits == "" then 0
    else
      var last := digits[|digits| - 1];
      assert IsDigit(last);
      10 * ValueOf(digits[..|digits| - 1]) + (last as int - '0' as int)
  }

  /** The digits written for a number denote it, and begin with a zero only for zero. */
  lemma {:induction false} DecimalDenotes(n: nat)
    ensures ValueOf(Decimal(n)) == n
    ensures Decimal(n)[0] == '0' <==> n == 0
  {
    var d := Decimal(n);
    if n < 10 {
      assert d[..0] == "";
      assert ValueOf(d) == 10 * ValueOf(d[..0]) + n;
    } else {
      DecimalDenotes(n / 10);
      assert d[..|d| - 1] == Decimal(n / 10) && d[|d| - 1] == Digit(n % 10);
    }
  }

  /** The order of code units, which is that of `sort()`. */
  predicate Precedes(s: string, t: string) {
    if t == "" then false
    else if s == "" then true
    else s[0] < t[0] || (s[0] == t[0] && Precedes(s[1..], t[1..]))
  }

  lemma {:induction false} PrecedesTotal(s: string, t: string)
    ensures Precedes(s, t) || Precedes(t, s) || s == t
    ensures !(Precedes(s, t) && Precedes(t, s)) && (s == t ==> !Precedes(s, t))
  {
    if s != "" && t != "" {
      PrecedesTotal(s[1..], t[1..]);
      assert s == [s[0]] + s[1..] && t == [t[0]] + t[1..];
    }
  }

  lemma {:induction false} PrecedesTransitive(s: string, t: string, u: string)
    requires Precedes(s, t) && Precedes(t, u)
    ensures Precedes(s, u)
  {
    if s != "" && s[0] == t[0] == u[0] {
      PrecedesTransitive(s[1..], t[1..], u[1..]);
    }
  }

  /** It is the order of the first place where two texts differ, and a text comes before its extensions. */
  lemma {:induction false} PrecedesIff(s: string, t: string)
    ensures Precedes(s, t) <==> (s < t || exists i | 0 <= i < |s| && i < |t| :: s[..i] == t[..i] && s[i] < t[i])
  {
    if s != "" && t != "" {
      assert s == [s[0]] + s[1..] && t == [t[0]] + t[1..];
      if s[0] == t[0] {
        PrecedesIff(s[1..], t[1..]);
        assert s <= t <==> s[1..] <= t[1..];
        forall i | 0 <= i < |s| && i < |t| && s[..i] == t[..i] && s[i] < t[i]
          ensures s[1..][..i - 1] == t[1..][..i - 1] && s[1..][i - 1] < t[1..][i - 1] && i > 0
        {
          assert s[1..][..i - 1] == s[..i][1..] && t[1..][..i - 1] == t[..i][1..];
        }
        forall i | 0 <= i < |s| - 1 && i < |t| - 1 && s[1..][..i] == t[1..][..i] && s[1..][i] < t[1..][i]
          ensures s[..i + 1] == t[..i + 1] && s[i + 1] < t[i + 1]
        {
          assert s[..i + 1] == [s[0]] + s[1..][..i] && t[..i + 1] == [t[0]] + t[1..][..i];
        }
      } else {
        assert s[..0] == t[..0];
      }
    }
  }

  predicate Blank(s: string) {
    forall i | 0 <= i < |s| :: IsSpace(s[i])
  }

  /** It neither begins nor ends with a blank. */
  predicate Solid(s: string) {
    s != "" ==> !IsSpace(s[0]) && !IsSpace(s[|s| - 1])
  }

  lemma {:induction false} TrimEndDrops(solid: string, blanks: string)
    requires Blank(blanks) && (solid == "" || !IsSpace(solid[|solid| - 1]))
    ensures TrimEnd(solid + blanks) == solid
  {
    hide IsSpace;
    var s := solid + blanks;
    if blanks == "" {
      assert s == solid;
    } else {
      assert s[..|s| - 1] == solid + blanks[..|blanks| - 1];
      TrimEndDrops(solid, blanks[..|blanks| - 1]);
    }
  }

  lemma {:induction false} TrimStartDrops(blanks: string, s: string)
    requires Blank(blanks)
    ensures TrimStart(blanks + s) == TrimStart(s)
  {
    hide IsSpace;
    if blanks == "" {
      assert blanks + s == s;
    } else {
      assert (blanks + s)[1..] == blanks[1..] + s;
      TrimStartDrops(blanks[1..], s);
    }
  }

  /** Trimming takes the blanks at both ends and nothing else. */
  lemma TrimIs(before: string, solid: string, after: string)
    requires Blank(before) && Blank(after) && Solid(solid)
    ensures Trim(before + (solid + after)) == solid
  {
    hide IsSpace, TrimStart, TrimEnd;
    TrimStartDrops(before, solid + after);
    if solid == "" {
      assert solid + after == after + "";
      TrimStartDrops(after, "");
      NothingToTrim();
    } else {
      SolidStarts(solid, after);
      TrimEndDrops(solid, after);
    }
  }

  lemma NothingToTrim()
    ensures TrimStart("") == "" && TrimEnd("") == ""
  {
  }

  lemma SolidStarts(solid: string, after: string)
    requires solid != "" && !IsSpace(solid[0])
    ensures TrimStart(solid + after) == solid + after
  {
  }

  lemma Associative<T>(x: seq<T>, y: seq<T>, z: seq<T>)
    ensures x + (y + z) == (x + y) + z
  {
  }
}
