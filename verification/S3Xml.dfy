/** XML text and paged listings in packages/s3/src/index.ts. */
module S3Xml {
  import opened Text

  /** `s.replace(/pattern/g, by)`: every occurrence from the left. */
  function Replace(s: string, pattern: string, replacement: string): string
    requires pattern != ""
    decreases |s|
  {
    if s == "" then ""
    else if pattern <= s then replacement + Replace(s[|pattern|..], pattern, replacement)
    else [s[0]] + Replace(s[1..], pattern, replacement)
  }

  function EscapeXml(s: string): string {
    Replace(Replace(Replace(Replace(Replace(s, "&", "&amp;"), "<", "&lt;"), ">", "&gt;"), "\"", "&quot;"), "'", "&apos;")
  }

  function DecodeXml(s: string): string {
    Replace(Replace(Replace(Replace(Replace(s, "&lt;", "<"), "&gt;", ">"), "&quot;", "\""), "&apos;", "'"), "&amp;", "&")
  }

  // --- character by character ---

  /** The predefined entities of section 4.6 of XML 1.0. */
  function Entity(c: char): string {
    if c == '&' then "&amp;" else if c == '<' then "&lt;" else if c == '>' then "&gt;"
    else if c == '"' then "&quot;" else if c == '\'' then "&apos;" else [c]
  }

  const FIVE := {'&', '<', '>', '"', '\''}

  /** `s` with the characters of `which` as entities. */
  function Escaping(s: string, which: set<char>): string {
    if s == "" then "" else (if s[0] in which then Entity(s[0]) else [s[0]]) + Escaping(s[1..], which)
  }

  predicate Free(s: string, c: char) {
    c !in s
  }

  /** Text without the pattern's first character is passed over. */
  lemma {:induction false} ReplaceSkips(x: string, y: string, pattern: string, replacement: string)
    requires pattern != "" && Free(x, pattern[0])
    ensures Replace(x + y, pattern, replacement) == x + Replace(y, pattern, replacement)
  {
    if x == "" {
      assert x + y == y;
    } else {
      assert x[0] != pattern[0] && (x + y)[0] == x[0] && (x + y)[1..] == x[1..] + y;
      ReplaceSkips(x[1..], y, pattern, replacement);
      Associative([x[0]], x[1..], Replace(y, pattern, replacement));
      assert [x[0]] + x[1..] == x;
    }
  }

  /** An occurrence at the front is replaced. */
  lemma ReplaceHits(y: string, pattern: string, replacement: string)
    requires pattern != ""
    ensures Replace(pattern + y, pattern, replacement) == replacement + Replace(y, pattern, replacement)
  {
    assert pattern <= pattern + y && (pattern + y)[|pattern|..] == y;
  }

  /** Another entity at the front is passed over: it starts with the same character and no other `&` follows in it. */
  lemma ReplacePasses(x: string, y: string, pattern: string, replacement: string)
    requires x != "" && pattern != "" && !(pattern <= x + y) && Free(x[1..], pattern[0])
    ensures Replace(x + y, pattern, replacement) == x + Replace(y, pattern, replacement)
  {
    assert (x + y)[0] == x[0] && (x + y)[1..] == x[1..] + y;
    ReplaceSkips(x[1..], y, pattern, replacement);
    Associative([x[0]], x[1..], Replace(y, pattern, replacement));
    assert [x[0]] + x[1..] == x;
  }

  // --- escaping is character by character ---

  lemma {:induction false} EscapeStep(s: string, which: set<char>, c: char)
    requires c in FIVE && c !in which && forall d | d in which :: c !in Entity(d)
    ensures Replace(Escaping(s, which), [c], Entity(c)) == Escaping(s, which + {c})
  {
    hide Replace;
    if s == "" {
      ReplaceNil([c], Entity(c));
    } else {
      var rest := Escaping(s[1..], which);
      EscapeStep(s[1..], which, c);
      if s[0] == c {
        ReplaceHits(rest, [c], Entity(c));
      } else {
        var x := if s[0] in which then Entity(s[0]) else [s[0]];
        ReplaceSkips(x, rest, [c], Entity(c));
      }
    }
  }

  lemma ReplaceNil(pattern: string, replacement: string)
    requires pattern != ""
    ensures Replace("", pattern, replacement) == ""
  {
  }

  lemma {:induction false} EscapingNone(s: string)
    ensures Escaping(s, {}) == s
  {
    if s != "" {
      EscapingNone(s[1..]);
      assert [s[0]] + s[1..] == s;
    }
  }

  /** The chain of replacements escapes each character once. */
  lemma EscapeIsEach(s: string)
    ensures EscapeXml(s) == Escaping(s, FIVE)
  {
    hide Replace, Escaping;
    EscapingNone(s);
    EscapeStep(s, {}, '&');
    EscapeStep(s, {} + {'&'}, '<');
    EscapeStep(s, {} + {'&'} + {'<'}, '>');
    EscapeStep(s, {} + {'&'} + {'<'} + {'>'}, '"');
    EscapeStep(s, {} + {'&'} + {'<'} + {'>'} + {'"'}, '\'');
    assert {} + {'&'} + {'<'} + {'>'} + {'"'} + {'\''} == FIVE;
  }

  // --- and decoding undoes it ---

  lemma EntityShape(c: char)
    requires c in FIVE
    ensures |Entity(c)| >= 4 && Entity(c)[0] == '&' && Free(Entity(c)[1..], '&')
  {
  }

  lemma BeginsAs(c: char, x: string)
    requires c in FIVE
    ensures Entity(c) <= x ==> |x| >= 4 && x[1] == Entity(c)[1] && x[2] == Entity(c)[2]
  {
    if Entity(c) <= x {
      assert x[..|Entity(c)|] == Entity(c);
    }
  }

  lemma FreeTail(x: string, c: char)
    requires x != "" && Free(x[1..], c)
    ensures forall j | 1 <= j < |x| :: x[j] != c
  {
    forall j | 1 <= j < |x| ensures x[j] != c {
      assert x[j] == x[1..][j - 1];
    }
  }

  /** No entity begins as another does. */
  lemma EntitiesApart(c: char, d: char, y: string)
    requires c in FIVE && d in FIVE && c != d
    ensures !(Entity(c) <= Entity(d) + y)
  {
    var x := Entity(d) + y;
    assert x[1] == Entity(d)[1] && x[2] == Entity(d)[2];
    BeginsAs(c, x);
  }

  lemma {:induction false} DecodeStep(s: string, which: set<char>, c: char)
    requires c in which && which <= FIVE && '&' in which && (c == '&' ==> which == {'&'})
    ensures Replace(Escaping(s, which), Entity(c), [c]) == Escaping(s, which - {c})
  {
    hide Replace, Entity;
    EntityShape(c);
    if s == "" {
      ReplaceNil(Entity(c), [c]);
    } else {
      var rest, d := Escaping(s[1..], which), s[0];
      DecodeStep(s[1..], which, c);
      if d == c {
        ReplaceHits(rest, Entity(c), [c]);
      } else if d in which {
        EntityShape(d);
        EntitiesApart(c, d, rest);
        ReplacePasses(Entity(d), rest, Entity(c), [c]);
      } else {
        ReplaceSkips([d], rest, Entity(c), [c]);
      }
    }
  }

  /** Decoding gives back every escaped string. */
  lemma EscapeDecodes(s: string)
    ensures DecodeXml(EscapeXml(s)) == s
  {
    hide Replace, Escaping, EscapeXml;
    EscapeIsEach(s);
    var a := FIVE - {'<'};
    var b := a - {'>'};
    var c := b - {'"'};
    var d := c - {'\''};
    assert d == {'&'} && d - {'&'} == {};
    DecodeStep(s, FIVE, '<');
    DecodeStep(s, a, '>');
    DecodeStep(s, b, '"');
    DecodeStep(s, c, '\'');
    DecodeStep(s, d, '&');
    EscapingNone(s);
  }

  /** In escaped text every ampersand starts exactly one of the five entities. */
  lemma {:induction false} AmpersandsStartEntities(s: string, i: nat)
    requires i < |Escaping(s, FIVE)| && Escaping(s, FIVE)[i] == '&'
    ensures exists c :: c in FIVE && Entity(c) <= Escaping(s, FIVE)[i..]
    ensures forall c, d | c in FIVE && d in FIVE && Entity(c) <= Escaping(s, FIVE)[i..] && Entity(d) <= Escaping(s, FIVE)[i..] :: c == d
  {
    hide Entity;
    var t := Escaping(s, FIVE);
    var x := if s[0] in FIVE then Entity(s[0]) else [s[0]];
    if s[0] in FIVE {
      EntityShape(s[0]);
    }
    if i < |x| {
      FreeTail(x, '&');
      assert t[0..] == t && Entity(s[0]) <= t;
    } else {
      assert t[i..] == Escaping(s[1..], FIVE)[i - |x|..];
      AmpersandsStartEntities(s[1..], i - |x|);
    }
    forall c, d | c in FIVE && d in FIVE && Entity(c) <= t[i..] && Entity(d) <= t[i..] ensures c == d {
      if c != d {
        assert t[i..] == Entity(d) + t[i..][|Entity(d)|..];
        EntitiesApart(c, d, t[i..][|Entity(d)|..]);
      }
    }
  }

  // --- the elements of a body ---

  /** A body as a server writes it: tags, and elements that hold only text. */
  datatype Piece = Open(tag: string) | Close(tag: string) | Leaf(tag: string, content: string)

  predicate IsTag(t: string) {
    t != "" && t[0] != '/' && Free(t, '<') && Free(t, '>')
  }

  predicate PieceOk(p: Piece) {
    IsTag(p.tag) && (p.Leaf? ==> Free(p.content, '<'))
  }

  function OpenTag(tag: string): string {
    "<" + (tag + ">")
  }

  function CloseTag(tag: string): string {
    "</" + (tag + ">")
  }

  function PieceText(p: Piece): string {
    match p
    case Open(tag) => OpenTag(tag)
    case Close(tag) => CloseTag(tag)
    case Leaf(tag, content) => OpenTag(tag) + (content + CloseTag(tag))
  }

  function BodyText(ps: seq<Piece>): string {
    if ps == [] then "" else PieceText(ps[0]) + BodyText(ps[1..])
  }

  /** The texts of the elements called `tag`, in order. */
  function Leaves(ps: seq<Piece>, tag: string): seq<string> {
    if ps == [] then []
    else (if ps[0].Leaf? && ps[0].tag == tag then [ps[0].content] else []) + Leaves(ps[1..], tag)
  }

  /** How far `s` goes without `stop`: the length of `[^<]*` when that is `<`. */
  function RunTo(s: string, stop: char): (n: nat)
    ensures n <= |s|
  {
    if s == "" || s[0] == stop then 0 else 1 + RunTo(s[1..], stop)
  }

  /** `<tag>([^<]*)</tag>` at the front: what is between, and what follows. */
  function MatchHere(tag: string, s: string): (r: Option<(string, string)>)
    ensures r.Some? ==> |r.value.1| < |s|
  {
    if !(OpenTag(tag) <= s) then None
    else
      var t := s[|OpenTag(tag)|..];
      var n := RunTo(t, '<');
      if CloseTag(tag) <= t[n..] then Some((t[..n], t[n..][|CloseTag(tag)|..])) else None
  }

  /** `matchAll(/<tag>([^<]*)<\/tag>/g)`, the part between. */
  function Scan(tag: string, s: string): seq<string>
    decreases |s|
  {
    if s == "" then []
    else
      match MatchHere(tag, s)
      case Some(m) => [m.0] + Scan(tag, m.1)
      case None => Scan(tag, s[1..])
  }

  lemma {:induction false} ScanSkips(tag: string, x: string, y: string)
    requires Free(x, '<')
    ensures Scan(tag, x + y) == Scan(tag, y)
  {
    if x == "" {
      assert x + y == y;
    } else {
      var s := x + y;
      assert s[0] == x[0] != '<' && OpenTag(tag)[0] == '<' && s[1..] == x[1..] + y;
      assert MatchHere(tag, s) == None;
      hide MatchHere;
      ScanSkips(tag, x[1..], y);
    }
  }

  lemma {:induction false} RunToIs(x: string, y: string, stop: char)
    requires Free(x, stop) && y != "" && y[0] == stop
    ensures RunTo(x + y, stop) == |x|
  {
    if x == "" {
      assert x + y == y;
    } else {
      assert (x + y)[1..] == x[1..] + y;
      RunToIs(x[1..], y, stop);
    }
  }

  /** One tag is not the beginning of another. */
  lemma TagsApart(tag: string, other: string, y: string)
    requires IsTag(tag) && IsTag(other) && OpenTag(tag) <= OpenTag(other) + y
    ensures tag == other
  {
    var s := (OpenTag(other) + y)[1..];
    var z := s[|tag| + 1..];
    assert OpenTag(tag) == (OpenTag(other) + y)[..|tag| + 2];
    assert tag + ">" == OpenTag(tag)[1..] == s[..|tag| + 1];
    assert s == tag + (">" + z) && s == other + (">" + y);
    RunToIs(tag, ">" + z, '>');
    RunToIs(other, ">" + y, '>');
    assert tag == s[..|tag|] && other == s[..|other|];
  }

  lemma MatchLeaf(tag: string, content: string, y: string)
    requires IsTag(tag) && Free(content, '<')
    ensures MatchHere(tag, PieceText(Leaf(tag, content)) + y) == Some((content, y))
  {
    var s := PieceText(Leaf(tag, content)) + y;
    var close := CloseTag(tag) + y;
    assert s == OpenTag(tag) + (content + close);
    var t := s[|OpenTag(tag)|..];
    assert t == content + close;
    RunToIs(content, close, '<');
    assert t[|content|..] == close && t[..|content|] == content;
    assert close[|CloseTag(tag)|..] == y;
  }

  /** A text that does not match at its `<` is passed over up to the next one. */
  lemma PassTag(tag: string, x: string, y: string)
    requires Free(x, '<') && !(OpenTag(tag) <= "<" + (x + y))
    ensures Scan(tag, "<" + (x + y)) == Scan(tag, y)
  {
    var s := "<" + (x + y);
    assert s[1..] == x + y;
    assert MatchHere(tag, s) == None;
    hide MatchHere;
    ScanSkips(tag, x, y);
  }

  lemma ClosePasses(tag: string, other: string, y: string)
    requires IsTag(tag) && IsTag(other)
    ensures Scan(tag, CloseTag(other) + y) == Scan(tag, y)
  {
    var x := "/" + (other + ">");
    assert CloseTag(other) + y == "<" + (x + y);
    assert ("<" + (x + y))[1] == '/' && OpenTag(tag)[1] == tag[0];
    PassTag(tag, x, y);
  }

  lemma OpenPasses(tag: string, other: string, content: string, y: string)
    requires IsTag(tag) && IsTag(other) && tag != other && Free(content, '<')
    ensures Scan(tag, OpenTag(other) + (content + y)) == Scan(tag, y)
  {
    var x := other + (">" + content);
    assert OpenTag(other) + (content + y) == "<" + (x + y);
    if OpenTag(tag) <= OpenTag(other) + (content + y) {
      TagsApart(tag, other, content + y);
    }
    PassTag(tag, x, y);
  }

  lemma PieceScans(tag: string, p: Piece, y: string)
    requires IsTag(tag) && PieceOk(p) && (p.Open? ==> p.tag != tag)
    ensures Scan(tag, PieceText(p) + y) == (if p.Leaf? && p.tag == tag then [p.content] else []) + Scan(tag, y)
  {
    hide Scan, IsTag, MatchHere;
    match p {
      case Open(other) =>
        assert OpenTag(other) + ("" + y) == OpenTag(other) + y;
        OpenPasses(tag, other, "", y);
      case Close(other) => ClosePasses(tag, other, y);
      case Leaf(other, content) =>
        if other == tag {
          MatchLeaf(tag, content, y);
          ScanHit(tag, PieceText(p) + y);
        } else {
          assert PieceText(p) + y == OpenTag(other) + (content + (CloseTag(other) + y));
          OpenPasses(tag, other, content, CloseTag(other) + y);
          ClosePasses(tag, other, y);
        }
    }
  }

  lemma ScanHit(tag: string, s: string)
    requires MatchHere(tag, s).Some?
    ensures Scan(tag, s) == [MatchHere(tag, s).value.0] + Scan(tag, MatchHere(tag, s).value.1)
  {
    hide MatchHere;
  }

  /** Scanning a body for an element finds each of them, in order, whatever else the body holds. */
  lemma {:induction false} ScanFindsLeaves(ps: seq<Piece>, tag: string)
    requires IsTag(tag) && forall p | p in ps :: PieceOk(p) && (p.Open? ==> p.tag != tag)
    ensures Scan(tag, BodyText(ps)) == Leaves(ps, tag)
  {
    hide Scan, PieceOk, IsTag, PieceText;
    if ps == [] {
      ScanNothing(tag);
    } else {
      ScanFindsLeaves(ps[1..], tag);
      PieceScans(tag, ps[0], BodyText(ps[1..]));
    }
  }

  lemma ScanNothing(tag: string)
    ensures Scan(tag, "") == []
  {
  }

  // --- listings ---

  datatype Response = Response(keys: seq<string>, truncated: bool, next: Option<string>)

  /** The regular expressions over the body of a response. */
  function ReadBody(body: string): Response {
    var tokens := Scan("NextContinuationToken", body);
    Response(Scan("Key", body), "true" in Scan("IsTruncated", body), if tokens == [] then None else Some(tokens[0]))
  }

  const READ := {"Key", "IsTruncated", "NextContinuationToken"}

  /** The body says what the response says, in elements that hold only text; it may hold anything else. */
  predicate Says(body: seq<Piece>, r: Response) {
    && (forall p | p in body :: PieceOk(p) && (p.Open? ==> p.tag !in READ))
    && Leaves(body, "Key") == r.keys
    && (r.truncated <==> "true" in Leaves(body, "IsTruncated"))
    && var tokens := Leaves(body, "NextContinuationToken"); r.next == if tokens == [] then None else Some(tokens[0])
  }

  lemma ReadTags()
    ensures IsTag("Key") && IsTag("IsTruncated") && IsTag("NextContinuationToken")
  {
  }

  /** A body that says something is read so. */
  lemma BodyIsRead(body: seq<Piece>, r: Response)
    requires Says(body, r)
    ensures ReadBody(BodyText(body)) == r
  {
    hide IsTag, PieceOk, Scan, Leaves, BodyText;
    ReadTags();
    ScanFindsLeaves(body, "Key");
    ScanFindsLeaves(body, "IsTruncated");
    ScanFindsLeaves(body, "NextContinuationToken");
  }

  /**
   * A store's answer to a listing of some prefix: pages, for each page but the first the token that fetches
   * it, and for each page a body that says so, where keys and tokens stand as XML text.
   */
  datatype Listing = Listing(pages: seq<seq<string>>, tokens: seq<string>, bodies: seq<seq<Piece>>)

  predicate Serves(l: Listing) {
    && |l.pages| >= 1 && |l.tokens| == |l.bodies| == |l.pages|
    && (forall i | 1 <= i < |l.tokens| :: l.tokens[i] != "")
    && (forall i, j | 1 <= i < j < |l.tokens| :: l.tokens[i] != l.tokens[j])
    && (forall i | 0 <= i < |l.pages| :: Says(l.bodies[i], Answer(l, i)))
  }

  function EscapeAll(keys: seq<string>): (r: seq<string>)
    ensures |r| == |keys|
  {
    seq(|keys|, i requires 0 <= i < |keys| => EscapeXml(keys[i]))
  }

  /** The page that a request's continuation token asks for. */
  predicate Asks(l: Listing, token: Option<string>, i: nat) {
    i < |l.pages| && i < |l.tokens| && if token.None? then i == 0 else i >= 1 && l.tokens[i] == token.value
  }

  function Answer(l: Listing, i: nat): Response
    requires i < |l.pages| && |l.tokens| == |l.pages|
  {
    Response(EscapeAll(l.pages[i]), i + 1 < |l.pages|,
             if i + 1 < |l.pages| then Some(EscapeXml(l.tokens[i + 1])) else None)
  }

  /** The body of a response, or none for a status other than 200. */
  method Respond(l: Listing, token: Option<string>, down: bool) returns (body: Option<string>)
    requires Serves(l) && exists i :: Asks(l, token, i)
    ensures body.None? == down
    ensures !down ==> forall i | Asks(l, token, i) :: ReadBody(body.value) == Answer(l, i)
  {
    hide EscapeXml, ReadBody, BodyText, Says;
    if down {
      return None;
    }
    var i: nat :| Asks(l, token, i);
    BodyIsRead(l.bodies[i], Answer(l, i));
    body := Some(BodyText(l.bodies[i]));
  }

  function Flatten(pages: seq<seq<string>>): seq<string> {
    if pages == [] then [] else Flatten(pages[..|pages| - 1]) + pages[|pages| - 1]
  }

  const PAGE_LIMIT := 10000

  /** `list`: every key; or none, when a request fails or there are more pages than it will ask for. */
  method List(l: Listing, down: nat -> bool) returns (keys: Option<seq<string>>)
    requires Serves(l)
    ensures keys == if |l.pages| <= PAGE_LIMIT && (forall i | 0 <= i < |l.pages| :: !down(i)) then Some(Flatten(l.pages)) else None
  {
    hide EscapeXml, DecodeXml, ReadBody, Says;
    var got, token := [], None;
    for page := 0 to PAGE_LIMIT
      invariant page < |l.pages| && Asks(l, token, page)
      invariant got == Flatten(l.pages[..page]) && forall i | 0 <= i < page :: !down(i)
    {
      var body := Respond(l, token, down(page));
      if body.None? {
        return None;
      }
      var r := ReadBody(body.value);
      var more := DecodeAll(r.keys);
      DecodedPage(l.pages[page], more);
      got := got + more;
      assert l.pages[..page + 1][..page] == l.pages[..page];
      if !r.truncated || r.next.None? || r.next.value == "" {
        LastPage(l, page);
        return Some(got);
      }
      token := Some(DecodeXml(r.next.value));
      EscapeDecodes(l.tokens[page + 1]);
    }
    keys := None;
  }

  method DecodeAll(keys: seq<string>) returns (r: seq<string>)
    ensures |r| == |keys| && forall i | 0 <= i < |keys| :: r[i] == DecodeXml(keys[i])
  {
    r := [];
    for i := 0 to |keys|
      invariant |r| == i && forall j | 0 <= j < i :: r[j] == DecodeXml(keys[j])
    {
      r := r + [DecodeXml(keys[i])];
    }
  }

  lemma DecodedPage(page: seq<string>, decoded: seq<string>)
    requires |decoded| == |page| && forall i | 0 <= i < |page| :: decoded[i] == DecodeXml(EscapeAll(page)[i])
    ensures decoded == page
  {
    hide EscapeXml, DecodeXml;
    forall i | 0 <= i < |page| ensures decoded[i] == page[i] {
      EscapeDecodes(page[i]);
    }
  }

  /** A token is never escaped to nothing, so only the last page ends the listing. */
  lemma LastPage(l: Listing, page: nat)
    requires Serves(l) && page < |l.pages|
    requires var r := Answer(l, page); !r.truncated || r.next.None? || r.next.value == ""
    ensures page + 1 == |l.pages| && l.pages[..page + 1] == l.pages
  {
    if page + 1 < |l.pages| {
      EscapeDecodes(l.tokens[page + 1]);
      hide EscapeXml;
      EmptyDecodes();
    }
  }

  lemma EmptyDecodes()
    ensures DecodeXml("") == ""
  {
    hide Replace;
    ReplaceNil("&lt;", "<");
    ReplaceNil("&gt;", ">");
    ReplaceNil("&quot;", "\"");
    ReplaceNil("&apos;", "'");
    ReplaceNil("&amp;", "&");
  }

  // --- such bodies can be written ---

  lemma {:induction false} EscapingIsText(s: string)
    ensures Free(Escaping(s, FIVE), '<')
  {
    if s != "" {
      EscapingIsText(s[1..]);
    }
  }

  /** Escaped text ends no element. */
  lemma EscapedIsText(s: string)
    ensures Free(EscapeXml(s), '<')
  {
    hide EscapeXml, Escaping;
    EscapeIsEach(s);
    EscapingIsText(s);
  }

  function KeyPieces(keys: seq<string>): seq<Piece> {
    if keys == [] then []
    else [Open("Contents"), Leaf("Key", keys[0]), Leaf("Size", "1"), Close("Contents")] + KeyPieces(keys[1..])
  }

  function TokenPieces(next: Option<string>): seq<Piece> {
    if next.None? then [] else [Leaf("NextContinuationToken", next.value)]
  }

  /** A body as a store writes it. */
  function Written(r: Response): seq<Piece> {
    [Open("ListBucketResult"), Leaf("IsTruncated", if r.truncated then "true" else "false")]
    + (KeyPieces(r.keys) + (TokenPieces(r.next) + [Close("ListBucketResult")]))
  }

  lemma {:induction false} LeavesAppend(x: seq<Piece>, y: seq<Piece>, tag: string)
    ensures Leaves(x + y, tag) == Leaves(x, tag) + Leaves(y, tag)
  {
    if x == [] {
      assert x + y == y;
    } else {
      assert (x + y)[1..] == x[1..] + y;
      LeavesAppend(x[1..], y, tag);
    }
  }

  function LeafOf(p: Piece, tag: string): seq<string> {
    if p.Leaf? && p.tag == tag then [p.content] else []
  }

  lemma LeavesCons(p: Piece, rest: seq<Piece>, tag: string)
    ensures Leaves([p] + rest, tag) == LeafOf(p, tag) + Leaves(rest, tag)
  {
    assert ([p] + rest)[1..] == rest;
  }

  lemma LeavesTwo(p: Piece, q: Piece, rest: seq<Piece>, tag: string)
    ensures Leaves([p, q] + rest, tag) == LeafOf(p, tag) + (LeafOf(q, tag) + Leaves(rest, tag))
  {
    hide Leaves, LeafOf;
    LeavesCons(q, rest, tag);
    LeavesCons(p, [q] + rest, tag);
    assert [p, q] + rest == [p] + ([q] + rest);
  }

  lemma LeavesFour(p: Piece, q: Piece, u: Piece, v: Piece, rest: seq<Piece>, tag: string)
    ensures Leaves([p, q, u, v] + rest, tag)
         == LeafOf(p, tag) + (LeafOf(q, tag) + (LeafOf(u, tag) + (LeafOf(v, tag) + Leaves(rest, tag))))
  {
    hide Leaves, LeafOf;
    LeavesTwo(u, v, rest, tag);
    LeavesTwo(p, q, [u, v] + rest, tag);
    assert [p, q, u, v] + rest == [p, q] + ([u, v] + rest);
  }

  lemma TagsDiffer()
    ensures "Contents" !in READ && "ListBucketResult" !in READ && "Size" !in READ && "true" != "false"
    ensures "Key" != "IsTruncated" && "Key" != "NextContinuationToken" && "IsTruncated" != "NextContinuationToken"
    ensures IsTag("ListBucketResult") && IsTag("Contents") && IsTag("Size")
  {
    assert |"Contents"| == 8 && |"ListBucketResult"| == 16 && |"Key"| == 3 && |"IsTruncated"| == 11 && |"Size"| == 4;
    assert |"NextContinuationToken"| == 21 && |"true"| == 4 && |"false"| == 5;
  }

  lemma {:induction false} KeyLeaves(keys: seq<string>, tag: string)
    requires tag in READ
    ensures Leaves(KeyPieces(keys), tag) == if tag == "Key" then keys else []
  {
    hide Leaves, IsTag;
    TagsDiffer();
    if keys == [] {
      NoLeaves(tag);
    } else {
      KeyLeaves(keys[1..], tag);
      LeavesFour(Open("Contents"), Leaf("Key", keys[0]), Leaf("Size", "1"), Close("Contents"), KeyPieces(keys[1..]), tag);
      assert [keys[0]] + keys[1..] == keys;
    }
  }

  lemma NoLeaves(tag: string)
    ensures Leaves([], tag) == []
  {
  }

  lemma {:induction false} KeyPiecesOk(keys: seq<string>)
    requires forall k | k in keys :: Free(k, '<')
    ensures forall p | p in KeyPieces(keys) :: PieceOk(p) && p.tag !in READ - {"Key"} && (p.Open? ==> p.tag == "Contents")
  {
    hide IsTag;
    TagsDiffer();
    ReadTags();
    if keys != [] {
      assert keys[0] in keys;
      KeyPiecesOk(keys[1..]);
    }
  }

  lemma WrittenLeaves(r: Response, tag: string)
    requires tag in READ
    ensures Leaves(Written(r), tag)
         == if tag == "Key" then r.keys
            else if tag == "IsTruncated" then [if r.truncated then "true" else "false"]
            else if r.next.None? then [] else [r.next.value]
  {
    hide Leaves, KeyPieces, IsTag;
    var open, flag := Open("ListBucketResult"), Leaf("IsTruncated", if r.truncated then "true" else "false");
    var tail := TokenPieces(r.next) + [Close("ListBucketResult")];
    TagsDiffer();
    NoLeaves(tag);
    KeyLeaves(r.keys, tag);
    LeavesTwo(open, flag, KeyPieces(r.keys) + tail, tag);
    LeavesAppend(KeyPieces(r.keys), tail, tag);
    LeavesCons(Close("ListBucketResult"), [], tag);
    assert [Close("ListBucketResult")] + [] == [Close("ListBucketResult")];
    if r.next.Some? {
      LeavesCons(Leaf("NextContinuationToken", r.next.value), [Close("ListBucketResult")], tag);
    } else {
      assert tail == [Close("ListBucketResult")];
    }
  }

  lemma WrittenOk(r: Response)
    requires (forall k | k in r.keys :: Free(k, '<')) && (r.next.Some? ==> Free(r.next.value, '<'))
    ensures forall p | p in Written(r) :: PieceOk(p) && (p.Open? ==> p.tag !in READ)
  {
    hide IsTag, KeyPieces;
    TagsDiffer();
    ReadTags();
    KeyPiecesOk(r.keys);
  }

  /** Every response whose texts are escaped has a body that says it. */
  lemma WrittenSays(r: Response)
    requires (forall k | k in r.keys :: Free(k, '<')) && (r.next.Some? ==> Free(r.next.value, '<'))
    ensures Says(Written(r), r) && ReadBody(BodyText(Written(r))) == r
  {
    hide Leaves, ReadBody, BodyText, Written, PieceOk, Free;
    TagsDiffer();
    WrittenOk(r);
    WrittenLeaves(r, "Key");
    WrittenLeaves(r, "IsTruncated");
    WrittenLeaves(r, "NextContinuationToken");
    BodyIsRead(Written(r), r);
  }
}
