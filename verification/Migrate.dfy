/** Loading migration files and applying them: packages/migrate/src/index.ts. */
module Migrate {
  import opened Text

  type Version = string

  /** A migration; the hash is left abstract, so the checksum is the newline-normalised text. */
  datatype File = File(filename: string, version: Version, name: string, sql: string, checksum: string)

  // --- file names ---

  const VERSION_LENGTH := 14
  const SUFFIX := ".sql"

  predicate IsNameChar(c: char) {
    IsLower(c) || IsDigit(c) || c == '_'
  }

  predicate IsVersion(s: string) {
    |s| == VERSION_LENGTH && forall i | 0 <= i < |s| :: IsDigit(s[i])
  }

  predicate IsName(s: string) {
    s != "" && forall i | 0 <= i < |s| :: IsNameChar(s[i])
  }

  predicate EndsWith(s: string, suffix: string) {
    |s| >= |suffix| && s[|s| - |suffix|..] == suffix
  }

  datatype Parsed = Parsed(version: Version, name: string)

  /** `/^(\d{14})_([a-z0-9_]+)\.sql$/`. */
  function ParseFilename(f: string): Option<Parsed> {
    if |f| > 19 && EndsWith(f, SUFFIX) && IsVersion(f[..14]) && f[14] == '_' && IsName(f[15..|f| - 4])
    then Some(Parsed(f[..14], f[15..|f| - 4])) else None
  }

  function Filename(p: Parsed): string {
    p.version + ("_" + (p.name + SUFFIX))
  }

  /** Fourteen digits. */
  predicate FourteenDigits(v: string) {
    |v| == 14 && forall c | c in v :: '0' <= c <= '9'
  }

  /** Lower-case letters, digits and underscores, one at least. */
  predicate PlainWord(n: string) {
    n != "" && forall c | c in n :: 'a' <= c <= 'z' || '0' <= c <= '9' || c == '_'
  }

  lemma PartsAre(p: Parsed)
    ensures IsVersion(p.version) <==> FourteenDigits(p.version)
    ensures IsName(p.name) <==> PlainWord(p.name)
  {
    assert IsVersion(p.version) ==> forall i | 0 <= i < |p.version| :: '0' <= p.version[i] <= '9';
    assert FourteenDigits(p.version) ==> forall i | 0 <= i < |p.version| :: p.version[i] in p.version;
    assert PlainWord(p.name) ==> forall i | 0 <= i < |p.name| :: p.name[i] in p.name;
    assert IsName(p.name) ==> forall i | 0 <= i < |p.name| :: IsNameChar(p.name[i]);
  }

  lemma EndsWithIff(s: string, suffix: string)
    ensures EndsWith(s, suffix) <==> exists before :: s == before + suffix
  {
    if EndsWith(s, suffix) {
      assert s == s[..|s| - |suffix|] + suffix;
    }
  }

  /** A name parses exactly when it is a version, a name and the suffix put together, and then to the first two. */
  lemma ParseIff(f: string, p: Parsed)
    ensures ParseFilename(f) == Some(p) <==>
      FourteenDigits(p.version) && PlainWord(p.name) && f == p.version + ("_" + (p.name + ".sql"))
  {
    hide FourteenDigits, PlainWord;
    ParseParts(f, p);
    PartsAre(p);
  }

  lemma ParseParts(f: string, p: Parsed)
    ensures ParseFilename(f) == Some(p) <==> IsVersion(p.version) && IsName(p.name) && f == Filename(p)
  {
    hide IsName;
    if ParseFilename(f) == Some(p) {
      assert f == f[..14] + (f[14..15] + (f[15..|f| - 4] + f[|f| - 4..]));
    }
    if IsVersion(p.version) && IsName(p.name) && f == Filename(p) {
      NameIsSome(p.name);
      FilenameParts(p);
    }
  }

  lemma NameIsSome(n: string)
    requires IsName(n)
    ensures |n| >= 1
  {
  }

  lemma FilenameParts(p: Parsed)
    requires IsVersion(p.version) && |p.name| >= 1
    ensures var f := Filename(p);
            |f| > 19 && EndsWith(f, SUFFIX) && f[..14] == p.version && f[14] == '_' && f[15..|f| - 4] == p.name
  {
    var f := Filename(p);
    assert f[14..] == "_" + (p.name + SUFFIX);
    assert f[15..] == p.name + SUFFIX;
    assert f[15..|f| - 4] == f[15..][..|p.name|];
    assert f[|f| - 4..] == f[15..][|p.name|..];
  }

  /** `replace(/\r\n/g, '\n')`. */
  function Normalised(sql: string): string {
    if sql == "" then ""
    else if |sql| >= 2 && sql[0] == '\r' && sql[1] == '\n' then "\n" + Normalised(sql[2..])
    else [sql[0]] + Normalised(sql[1..])
  }

  function Checksum(sql: string): string {
    Normalised(sql)
  }

  const CRLF := "\r\n"

  /** The text cut at each CR LF. */
  function CutAtCrLf(s: string): (r: seq<string>)
    ensures r != []
    decreases |s|
  {
    match IndexOf(s, CRLF)
    case None => [s]
    case Some(i) =>
      IndexOfFirst(s, CRLF);
      [s[..i]] + CutAtCrLf(s[i + 2..])
  }

  /** The text with each CR LF read as LF. */
  function ReadAsLf(s: string): string {
    Join(CutAtCrLf(s), "\n")
  }

  lemma CrLfAtFront(s: string)
    ensures |s| >= 2 && s[0] == '\r' && s[1] == '\n' <==> CRLF <= s
    ensures OccursAt(s, CRLF, 0) <==> CRLF <= s
  {
    assert s[0..] == s;
    if |s| >= 2 && s[0] == '\r' && s[1] == '\n' {
      assert s[..2] == CRLF;
    }
  }

  lemma {:induction false} NoCrLfStays(s: string)
    requires forall j: nat :: !OccursAt(s, CRLF, j)
    ensures Normalised(s) == s
  {
    hide OccursAt;
    if s != "" {
      CrLfAtFront(s);
      forall j: nat ensures !OccursAt(s[1..], CRLF, j) {
        OccursLater(s, CRLF, 1, j);
      }
      NoCrLfStays(s[1..]);
      assert [s[0]] + s[1..] == s;
    }
  }

  lemma NormalisedUnfolds(s: string)
    ensures Normalised(s) ==
      if s == "" then ""
      else if |s| >= 2 && s[0] == '\r' && s[1] == '\n' then "\n" + Normalised(s[2..])
      else [s[0]] + Normalised(s[1..])
  {
  }

  /** A CR LF anywhere is read as LF, and what is before and after it as it would be alone. */
  lemma {:induction false} CrLfIsLf(a: string, b: string)
    ensures Normalised(a + (CRLF + b)) == Normalised(a) + ("\n" + Normalised(b))
    decreases |a|
  {
    hide Normalised;
    var s, after := a + (CRLF + b), "\n" + Normalised(b);
    NormalisedUnfolds(a);
    NormalisedUnfolds(s);
    if a == "" {
      assert s == CRLF + b && s[2..] == b;
      assert "" + after == after;
    } else if |a| >= 2 && a[0] == '\r' && a[1] == '\n' {
      assert s[2..] == a[2..] + (CRLF + b);
      CrLfIsLf(a[2..], b);
      Associative("\n", Normalised(a[2..]), after);
    } else {
      assert s[1..] == a[1..] + (CRLF + b);
      assert s[1] == if |a| > 1 then a[1] else '\r';
      CrLfIsLf(a[1..], b);
      Associative([a[0]], Normalised(a[1..]), after);
    }
  }

  lemma {:induction false} NormalisedIs(s: string)
    ensures Normalised(s) == ReadAsLf(s)
    decreases |s|
  {
    hide Normalised;
    IndexOfFirst(s, CRLF);
    match IndexOf(s, CRLF)
    case None => NoCrLfStays(s);
    case Some(i) =>
      var a, b := s[..i], s[i + 2..];
      assert s == a + (CRLF + b);
      CrLfIsLf(a, b);
      NothingSooner(s, i);
      NoCrLfStays(a);
      NormalisedIs(b);
      assert CutAtCrLf(s) == [a] + CutAtCrLf(b) && ([a] + CutAtCrLf(b))[1..] == CutAtCrLf(b);
  }

  lemma NothingSooner(s: string, i: nat)
    requires i <= |s| && (forall j: nat | j < i :: !OccursAt(s, CRLF, j))
    ensures forall j: nat :: !OccursAt(s[..i], CRLF, j)
  {
    forall j: nat ensures !OccursAt(s[..i], CRLF, j) {
      OccursWithin(s, CRLF, i, j);
    }
  }

  /** Two texts have one checksum exactly when they agree once every CR LF is read as LF. */
  lemma ChecksumsAgreeIff(s: string, t: string)
    ensures Checksum(s) == Checksum(t) <==> ReadAsLf(s) == ReadAsLf(t)
  {
    hide Normalised, ReadAsLf;
    NormalisedIs(s);
    NormalisedIs(t);
  }

  // --- order ---

  /** Texts of one length that differ are ordered as their extensions are. */
  lemma {:induction false} PrecedesPrefix(s: string, t: string, a: string, b: string)
    requires |s| == |t| && s != t
    ensures Precedes(s + a, t + b) == Precedes(s, t)
  {
    if s[0] == t[0] {
      assert s == [s[0]] + s[1..] && t == [t[0]] + t[1..];
      assert (s + a)[1..] == s[1..] + a && (t + b)[1..] == t[1..] + b;
      PrecedesPrefix(s[1..], t[1..], a, b);
    }
  }

  predicate Increasing(xs: seq<string>) {
    forall i, j | 0 <= i < j < |xs| :: Precedes(xs[i], xs[j])
  }

  function Insert(x: string, xs: seq<string>): (r: seq<string>)
    ensures multiset(r) == multiset(xs) + multiset{x}
  {
    if xs == [] then [x]
    else
      assert xs == [xs[0]] + xs[1..];
      if Precedes(x, xs[0]) then [x] + xs else [xs[0]] + Insert(x, xs[1..])
  }

  function Sort(xs: seq<string>): (r: seq<string>)
    ensures multiset(r) == multiset(xs)
  {
    if xs == [] then []
    else
      assert xs == [xs[0]] + xs[1..];
      Insert(xs[0], Sort(xs[1..]))
  }

  lemma ConsIncreasing(x: string, xs: seq<string>)
    requires Increasing(xs) && forall y | y in xs :: Precedes(x, y)
    ensures Increasing([x] + xs)
  {
    hide Precedes;
  }

  lemma AheadOfAll(x: string, xs: seq<string>)
    requires Increasing(xs) && xs != [] && Precedes(x, xs[0])
    ensures forall y | y in xs :: Precedes(x, y)
  {
    hide Precedes;
    forall j | 0 <= j < |xs| ensures Precedes(x, xs[j]) {
      if j > 0 {
        PrecedesTransitive(x, xs[0], xs[j]);
      }
    }
  }

  lemma {:induction false} InsertIncreasing(x: string, xs: seq<string>)
    requires Increasing(xs) && x !in xs
    ensures Increasing(Insert(x, xs))
  {
    hide Precedes;
    if xs != [] {
      PrecedesTotal(x, xs[0]);
      if Precedes(x, xs[0]) {
        AheadOfAll(x, xs);
        ConsIncreasing(x, xs);
      } else {
        var rest := Insert(x, xs[1..]);
        InsertIncreasing(x, xs[1..]);
        forall y | y in rest ensures Precedes(xs[0], y) {
          assert y in multiset(rest);
        }
        ConsIncreasing(xs[0], rest);
      }
    }
  }

  predicate Distinct(xs: seq<string>) {
    forall i, j | 0 <= i < j < |xs| :: xs[i] != xs[j]
  }

  lemma {:induction false} SortIncreasing(xs: seq<string>)
    requires Distinct(xs)
    ensures Increasing(Sort(xs))
  {
    hide Precedes;
    if xs != [] {
      SortIncreasing(xs[1..]);
      var rest := Sort(xs[1..]);
      assert xs[0] !in rest by {
        assert forall y :: y in rest <==> y in multiset(rest);
      }
      InsertIncreasing(xs[0], rest);
    }
  }

  lemma SortMembers(xs: seq<string>)
    ensures forall x :: x in Sort(xs) <==> x in xs
  {
    forall x: string ensures x in Sort(xs) <==> x in xs {
      assert x in Sort(xs) <==> x in multiset(Sort(xs));
    }
  }

  function SqlFiles(listing: seq<string>): (r: seq<string>)
    ensures forall f | f in r :: f in listing && EndsWith(f, SUFFIX)
    ensures forall f | f in listing :: EndsWith(f, SUFFIX) ==> f in r
  {
    if listing == [] then []
    else (if EndsWith(listing[0], SUFFIX) then [listing[0]] else []) + SqlFiles(listing[1..])
  }

  lemma {:induction false} SqlFilesDistinct(listing: seq<string>)
    requires Distinct(listing)
    ensures Distinct(SqlFiles(listing))
  {
    hide EndsWith;
    if listing != [] {
      SqlFilesDistinct(listing[1..]);
      assert listing[0] !in SqlFiles(listing[1..]) by {
        assert listing[0] !in listing[1..];
      }
    }
  }

  // --- loading ---

  datatype Loaded = Ok(files: seq<File>) | BadName(filename: string) | SharedVersion(version: Version)

  function FileOf(f: string, p: Parsed, sql: string): File {
    File(f, p.version, p.name, sql, Checksum(sql))
  }

  predicate Faithful(f: File, dir: map<string, string>) {
    && f.filename in dir && f.sql == dir[f.filename] && f.checksum == Checksum(f.sql)
    && ParseFilename(f.filename) == Some(Parsed(f.version, f.name))
  }

  /** The versions of a loaded list, in order. */
  function Versions(files: seq<File>): (r: seq<Version>)
    ensures |r| == |files| && forall i | 0 <= i < |r| :: r[i] == files[i].version
  {
    seq(|files|, i requires 0 <= i < |files| => files[i].version)
  }

  function Filenames(files: seq<File>): (r: seq<string>)
    ensures |r| == |files| && forall i | 0 <= i < |r| :: r[i] == files[i].filename
  {
    seq(|files|, i requires 0 <= i < |files| => files[i].filename)
  }

  predicate AllFaithful(files: seq<File>, dir: map<string, string>) {
    forall f | f in files :: Faithful(f, dir)
  }

  /** Two differently named entries have the version `v`. */
  predicate Shares(entries: seq<string>, v: Version) {
    exists f, g | f in entries && g in entries && f != g ::
      && ParseFilename(f).Some? && ParseFilename(g).Some?
      && ParseFilename(f).value.version == ParseFilename(g).value.version == v
  }

  /** One file for each entry, or the first entry that is badly named. */
  method ReadAll(entries: seq<string>, dir: map<string, string>) returns (out: seq<File>, bad: Option<string>)
    requires forall f | f in entries :: f in dir
    ensures match bad
            case None => Filenames(out) == entries && AllFaithful(out, dir)
            case Some(f) => f in entries && ParseFilename(f).None?
  {
    hide ParseFilename, Checksum;
    out := [];
    for i := 0 to |entries|
      invariant Filenames(out) == entries[..i] && AllFaithful(out, dir)
    {
      assert entries[i] in entries;
      var parsed := ParseFilename(entries[i]);
      if parsed.None? {
        return out, Some(entries[i]);
      }
      out := out + [FileOf(entries[i], parsed.value, dir[entries[i]])];
      assert entries[..i + 1] == entries[..i] + [entries[i]];
    }
    assert entries[..|entries|] == entries;
    bad := None;
  }

  /**
   * Every `.sql` entry of the directory, by name; a badly named one or a shared version refuses
   * the lot. `listing` is in whatever order the directory returns it.
   */
  method LoadMigrations(listing: seq<string>, dir: map<string, string>) returns (r: Loaded)
    requires Distinct(listing) && forall f | f in listing :: f in dir
    ensures r.Ok? ==>
      Filenames(r.files) == Sort(SqlFiles(listing)) && AllFaithful(r.files, dir) && Increasing(Versions(r.files))
    ensures r.BadName? ==> r.filename in listing && EndsWith(r.filename, SUFFIX) && ParseFilename(r.filename).None?
    ensures r.SharedVersion? ==> Shares(Sort(SqlFiles(listing)), r.version)
  {
    hide Precedes, ParseFilename, Checksum, EndsWith, Increasing, AllFaithful, Shares, Sort, Distinct;
    var entries := Sort(SqlFiles(listing));
    SortMembers(SqlFiles(listing));
    SqlFilesDistinct(listing);
    SortIncreasing(SqlFiles(listing));
    var out, bad := ReadAll(entries, dir);
    if bad.Some? {
      return BadName(bad.value);
    }
    var shared := FindShared(Versions(out));
    if shared.Some? {
      SharedFiles(out, entries, shared.value.0, shared.value.1, dir);
      return SharedVersion(out[shared.value.1].version);
    }
    VersionsIncrease(out, dir);
    return Ok(out);
  }

  /** The first version that occurs earlier in the list, with where. */
  method FindShared(vs: seq<Version>) returns (r: Option<(nat, nat)>)
    ensures match r
            case None => Distinct(vs)
            case Some(p) => p.0 < p.1 < |vs| && vs[p.0] == vs[p.1]
  {
    for i := 0 to |vs|
      invariant Distinct(vs[..i])
    {
      for j := 0 to i
        invariant forall k | 0 <= k < j :: vs[k] != vs[i]
      {
        if vs[j] == vs[i] {
          return Some((j, i));
        }
      }
    }
    assert vs[..|vs|] == vs;
    r := None;
  }

  lemma SharedFiles(files: seq<File>, entries: seq<string>, i: nat, j: nat, dir: map<string, string>)
    requires i < j < |files| && Filenames(files) == entries && Increasing(entries)
    requires files[i].version == files[j].version && AllFaithful(files, dir)
    ensures Shares(entries, files[j].version)
  {
    hide Precedes, ParseFilename, Checksum;
    assert files[i] in files && files[j] in files;
    PrecedesTotal(entries[i], entries[j]);
    assert Filenames(files)[i] == files[i].filename && Filenames(files)[j] == files[j].filename;
    assert entries[i] in entries && entries[j] in entries;
  }

  /** Distinct versions come in the order of the names, since all have one length. */
  lemma VersionsIncrease(files: seq<File>, dir: map<string, string>)
    requires Increasing(Filenames(files)) && Distinct(Versions(files))
    requires AllFaithful(files, dir)
    ensures Increasing(Versions(files))
  {
    hide Precedes, ParseFilename, Checksum, IsName;
    forall i, j | 0 <= i < j < |files| ensures Precedes(Versions(files)[i], Versions(files)[j]) {
      var f, g := files[i], files[j];
      assert f in files && g in files;
      var p, q := Parsed(f.version, f.name), Parsed(g.version, g.name);
      ParseParts(f.filename, p);
      ParseParts(g.filename, q);
      assert Precedes(Filenames(files)[i], Filenames(files)[j]);
      PrecedesPrefix(f.version, g.version, "_" + (f.name + SUFFIX), "_" + (g.name + SUFFIX));
    }
  }
}
