/** The hand-written parser for S3 object listings.

    A document is looked at as a sequence of pieces, each a tag followed by text without '<'. The
    parser searches the flat string; the lemmas show that these searches find whole pieces, and from
    that that parsing undoes rendering. */
module S3Listing {
  import opened Common
  import opened Decimal

  // ---------------------------------------------------------------- string search

  predicate MatchesAt(s: string, pattern: string, i: nat) {
    i + |pattern| <= |s| && s[i..i + |pattern|] == pattern
  }

  /** `str::find`: the first match. */
  function Find(s: string, pattern: string): (found: Option<nat>)
    ensures found.Some? ==> MatchesAt(s, pattern, found.value)
  {
    FindFrom(s, pattern, 0)
  }

  function FindFrom(s: string, pattern: string, i: nat): (found: Option<nat>)
    ensures found.Some? ==> MatchesAt(s, pattern, found.value)
    decreases |s| - i
  {
    if MatchesAt(s, pattern, i) then Some(i)
    else if i >= |s| then None
    else FindFrom(s, pattern, i + 1)
  }

  function Tag(name: string): string { "<" + name + ">" }

  function ExtractXmlTag(xml: string, tag: string): Option<string> {
    var open, close := Tag(tag), Tag("/" + tag);
    var openAt := Find(xml, open);
    if openAt.None? then None
    else
      var start := openAt.value + |open|;
      var closeAt := Find(xml[start..], close);
      if closeAt.None? then None else Some(xml[start..start + closeAt.value])
  }

  function Split(s: string, separator: string): (parts: seq<string>)
    requires separator != ""
    ensures parts != []
    decreases |s|
  {
    var at := Find(s, separator);
    if at.None? then [s]
    else [s[..at.value]] + Split(s[at.value + |separator|..], separator)
  }

  // ---------------------------------------------------------------- the parser

  datatype ObjectInfo = ObjectInfo(key: string, size: nat, lastModified: string, etag: string)

  function OrEmpty(o: Option<string>): string { if o.Some? then o.value else "" }

  function SizeOf(o: Option<string>): nat {
    if o.Some? && ParseU64(o.value).Some? then ParseU64(o.value).value else 0
  }

  /** The tag names of a listing; the source's are `S3`. */
  datatype TagNames = TagNames(
    root: string, contents: string, key: string, lastModified: string, etag: string, size: string, token: string)

  const S3 := TagNames("ListBucketResult", "Contents", "Key", "LastModified", "ETag", "Size", "NextContinuationToken")

  function ParseBlock(n: TagNames, block: string): ObjectInfo {
    ObjectInfo(OrEmpty(ExtractXmlTag(block, n.key)), SizeOf(ExtractXmlTag(block, n.size)),
               OrEmpty(ExtractXmlTag(block, n.lastModified)), OrEmpty(ExtractXmlTag(block, n.etag)))
  }

  /** The objects of the blocks that have a key. */
  function ParseBlocks(n: TagNames, blocks: seq<string>): seq<ObjectInfo> {
    if blocks == [] then []
    else
      var o := ParseBlock(n, blocks[|blocks| - 1]);
      ParseBlocks(n, blocks[..|blocks| - 1]) + (if o.key != "" then [o] else [])
  }

  function Parsed(xml: string): (seq<ObjectInfo>, Option<string>) {
    (ParseBlocks(S3, Split(xml, Tag(S3.contents))[1..]), ExtractXmlTag(xml, S3.token))
  }

  method ParseListObjectsXml(xml: string) returns (objects: seq<ObjectInfo>, nextToken: Option<string>)
    ensures (objects, nextToken) == Parsed(xml)
  {
    objects := [];
    nextToken := ExtractXmlTag(xml, "NextContinuationToken");
    var blocks := Split(xml, "<Contents>")[1..];
    assert "<Contents>" == Tag(S3.contents);
    for i := 0 to |blocks|
      invariant objects == ParseBlocks(S3, blocks[..i])
    {
      var key := OrEmpty(ExtractXmlTag(blocks[i], "Key"));
      var size := SizeOf(ExtractXmlTag(blocks[i], "Size"));
      var lastModified := OrEmpty(ExtractXmlTag(blocks[i], "LastModified"));
      var etag := OrEmpty(ExtractXmlTag(blocks[i], "ETag"));
      assert blocks[..i + 1][..i] == blocks[..i];
      if key != "" {
        objects := objects + [ObjectInfo(key, size, lastModified, etag)];
      }
    }
    assert blocks[..|blocks|] == blocks;
  }

  // ---------------------------------------------------------------- pieces

  datatype Piece = Piece(name: string, text: string)

  predicate IsText(s: string) { '<' !in s }

  predicate IsName(s: string) { '<' !in s && '>' !in s }

  predicate Clean(ps: seq<Piece>) {
    ps == [] || (IsName(ps[0].name) && IsText(ps[0].text) && Clean(ps[1..]))
  }

  predicate Lacks(ps: seq<Piece>, name: string) {
    ps == [] || (ps[0].name != name && Lacks(ps[1..], name))
  }

  function Render(ps: seq<Piece>): string {
    if ps == [] then "" else Tag(ps[0].name) + ps[0].text + Render(ps[1..])
  }

  lemma {:induction false} Concat(a: seq<Piece>, b: seq<Piece>, name: string)
    ensures Render(a + b) == Render(a) + Render(b)
    ensures Clean(a + b) <==> Clean(a) && Clean(b)
    ensures Lacks(a + b, name) <==> Lacks(a, name) && Lacks(b, name)
    decreases a
  {
    if a == [] {
      assert a + b == b;
    } else {
      assert (a + b)[1..] == a[1..] + b;
      Concat(a[1..], b, name);
    }
  }

  // ---------------------------------------------------------------- searching rendered pieces

  lemma {:induction false} FindFromIsFirst(s: string, pattern: string, i: nat, j: nat)
    requires i <= j && MatchesAt(s, pattern, j) && forall k :: i <= k < j ==> !MatchesAt(s, pattern, k)
    ensures FindFrom(s, pattern, i) == Some(j)
    decreases j - i
  {
    if i == j {
    } else {
      assert !MatchesAt(s, pattern, i);
      FindFromIsFirst(s, pattern, i + 1, j);
    }
  }

  lemma FindFromIsNone(s: string, pattern: string, i: nat)
    requires pattern != "" && forall k :: 0 <= k < |s| ==> !MatchesAt(s, pattern, k)
    ensures FindFrom(s, pattern, i) == None
    decreases |s| - i
  {
  }

  /** A tag does not begin inside text. */
  lemma NoMatchInText(lead: string, rest: string, pattern: string, i: nat)
    requires IsText(lead) && pattern != "" && pattern[0] == '<' && i < |lead|
    ensures !MatchesAt(lead + rest, pattern, i)
  {
  }

  /** At the start of a piece a tag matches exactly if it is that piece's tag. */
  lemma MatchAtPiece(lead: string, name: string, rest: string, tag: string)
    requires IsName(name) && IsName(tag)
    ensures MatchesAt(lead + (Tag(name) + rest), Tag(tag), |lead|) <==> name == tag
  {
    ShiftMatch(lead, Tag(name) + rest, Tag(tag), 0);
    TagDecides(name, rest, tag);
  }

  lemma TagDecides(name: string, rest: string, tag: string)
    requires IsName(name) && IsName(tag)
    ensures MatchesAt(Tag(name) + rest, Tag(tag), 0) <==> name == tag
  {
    var s, t := Tag(name) + rest, Tag(tag);
    TagEndsOnce(name, rest, |tag|);
    TagEndsOnce(tag, "", |name|);
    assert t + "" == t;
    assert MatchesAt(s, t, 0) ==> s[..|t|] == t;
    assert MatchesAt(s, t, 0) ==> forall k :: 0 <= k < |t| ==> s[k] == t[k];
    assert name == s[1..|name| + 1] && tag == t[1..|tag| + 1];
    assert s[..|name| + 2] == Tag(name);
  }

  /** The first '>' after a tag's start ends the tag. */
  lemma TagEndsOnce(name: string, rest: string, k: nat)
    requires IsName(name)
    ensures k < |name| ==> (Tag(name) + rest)[k + 1] != '>'
    ensures (Tag(name) + rest)[|name| + 1] == '>'
  {
  }

  lemma ShiftMatch(a: string, b: string, pattern: string, k: nat)
    ensures MatchesAt(a + b, pattern, |a| + k) <==> MatchesAt(b, pattern, k)
  {
  }

  lemma Regroup<T>(a: seq<T>, b: seq<T>, c: seq<T>, d: seq<T>, e: seq<T>, f: seq<T>, g: seq<T>)
    ensures a + ((b + c + d) + e + f) + g == (a + b) + ((c + d + e) + f + g)
    ensures a + ((b + c + d) + e + f) + g == a + ((b + c + d) + (e + f + g))
  {
  }

  /** Pieces without a tag contain no match of it, not even one that runs on into what follows. */
  lemma {:induction false} NoMatchBefore(lead: string, ps: seq<Piece>, rest: string, tag: string, k: nat)
    requires IsText(lead) && Clean(ps) && IsName(tag) && Lacks(ps, tag)
    requires k < |lead + Render(ps)|
    ensures !MatchesAt(lead + Render(ps) + rest, Tag(tag), k)
    decreases ps
  {
    if k < |lead| {
      assert lead + Render(ps) + rest == lead + (Render(ps) + rest);
      NoMatchInText(lead, Render(ps) + rest, Tag(tag), k);
    } else {
      var p, tl := ps[0], ps[1..];
      var inside := p.name + ">" + p.text;
      Regroup(lead, "<", p.name, ">", p.text, Render(tl), rest);
      if k == |lead| {
        MatchAtPiece(lead, p.name, p.text + Render(tl) + rest, tag);
      } else {
        var j := k - |lead| - 1;
        ShiftMatch(lead + "<", inside + Render(tl) + rest, Tag(tag), j);
        NoMatchBefore(inside, tl, rest, tag, j);
      }
    }
  }

  /** The first piece with a tag is where the search finds it. */
  lemma FindTag(lead: string, before: seq<Piece>, p: Piece, after: string)
    requires IsText(lead) && Clean(before) && IsName(p.name) && Lacks(before, p.name)
    ensures Find(lead + Render(before) + (Tag(p.name) + after), Tag(p.name)) == Some(|lead + Render(before)|)
  {
    var front, rest := lead + Render(before), Tag(p.name) + after;
    MatchAtPiece(front, p.name, after, p.name);
    forall k | 0 <= k < |front|
      ensures !MatchesAt(front + rest, Tag(p.name), k)
    {
      NoMatchBefore(lead, before, rest, p.name, k);
    }
    FindFromIsFirst(front + rest, Tag(p.name), 0, |front|);
  }

  lemma MissingTag(lead: string, ps: seq<Piece>, tag: string)
    requires IsText(lead) && Clean(ps) && IsName(tag) && Lacks(ps, tag)
    ensures Find(lead + Render(ps), Tag(tag)) == None
  {
    var s := lead + Render(ps);
    forall k | 0 <= k < |s|
      ensures !MatchesAt(s, Tag(tag), k)
    {
      NoMatchBefore(lead, ps, "", tag, k);
      assert s + "" == s;
    }
    FindFromIsNone(s, Tag(tag), 0);
  }

  lemma RenderAround(before: seq<Piece>, p: Piece, after: seq<Piece>)
    ensures Render(before + ([p] + after)) == Render(before) + (Tag(p.name) + (p.text + Render(after)))
  {
    Concat(before, [p] + after, "");
    Concat([p], after, "");
    assert Render([p]) == Tag(p.name) + p.text;
    assert Tag(p.name) + p.text + Render(after) == Tag(p.name) + (p.text + Render(after));
  }

  // ---------------------------------------------------------------- reading pieces

  /** Where the first piece with a tag is; the number of pieces, if there is none. */
  function FirstPiece(ps: seq<Piece>, name: string): (i: nat)
    ensures i <= |ps| && (i < |ps| ==> ps[i].name == name)
  {
    if ps == [] || ps[0].name == name then 0 else 1 + FirstPiece(ps[1..], name)
  }

  /** What lies between the first opening tag and the next closing tag. */
  function ReadField(ps: seq<Piece>, name: string): Option<string> {
    var i := FirstPiece(ps, name);
    if i == |ps| then None else ReadUpTo(ps[i].text, ps[i + 1..], "/" + name)
  }

  function ReadUpTo(text: string, ps: seq<Piece>, name: string): Option<string> {
    var j := FirstPiece(ps, name);
    if j == |ps| then None else Some(text + Render(ps[..j]))
  }

  /** Text followed by pieces. */
  datatype Block = Block(lead: string, pieces: seq<Piece>)

  function RenderBlock(b: Block): string { b.lead + Render(b.pieces) }

  function RenderBlocks(bs: seq<Block>): seq<string> {
    if bs == [] then [] else [RenderBlock(bs[0])] + RenderBlocks(bs[1..])
  }

  predicate CleanBlock(b: Block) { IsText(b.lead) && Clean(b.pieces) }

  function SplitBlock(b: Block, name: string): (bs: seq<Block>)
    ensures bs != []
    decreases |b.pieces|
  {
    var i := FirstPiece(b.pieces, name);
    if i == |b.pieces| then [b]
    else [Block(b.lead, b.pieces[..i])] + SplitBlock(Block(b.pieces[i].text, b.pieces[i + 1..]), name)
  }

  function ReadObject(n: TagNames, ps: seq<Piece>): ObjectInfo {
    ObjectInfo(OrEmpty(ReadField(ps, n.key)), SizeOf(ReadField(ps, n.size)),
               OrEmpty(ReadField(ps, n.lastModified)), OrEmpty(ReadField(ps, n.etag)))
  }

  function ReadObjects(n: TagNames, bs: seq<Block>): seq<ObjectInfo> {
    if bs == [] then []
    else
      var o := ReadObject(n, bs[0].pieces);
      (if o.key != "" then [o] else []) + ReadObjects(n, bs[1..])
  }

  /** The listing as a reader of whole tags finds it. */
  function ReadListing(n: TagNames, document: Block): (seq<ObjectInfo>, Option<string>) {
    (ReadObjects(n, SplitBlock(document, n.contents)[1..]), ReadField(document.pieces, n.token))
  }

  // ---------------------------------------------------------------- the parser reads pieces

  lemma {:induction false} FirstPieceIsFirst(ps: seq<Piece>, name: string)
    ensures var i := FirstPiece(ps, name); Lacks(ps[..i], name)
    ensures FirstPiece(ps, name) == |ps| <==> Lacks(ps, name)
    decreases ps
  {
    if ps == [] || ps[0].name == name {
    } else {
      FirstPieceIsFirst(ps[1..], name);
      var i := FirstPiece(ps, name);
      assert ps[..i][1..] == ps[1..][..i - 1];
    }
  }

  lemma Around<T>(s: seq<T>, i: nat)
    requires i < |s|
    ensures s == s[..i] + ([s[i]] + s[i + 1..])
  {
  }

  lemma CleanAround(before: seq<Piece>, p: Piece, after: seq<Piece>)
    ensures Clean(before + ([p] + after)) <==> Clean(before) && IsName(p.name) && IsText(p.text) && Clean(after)
  {
    Concat(before, [p] + after, "");
    assert ([p] + after)[1..] == after;
  }

  lemma CleanParts(ps: seq<Piece>, i: nat)
    requires Clean(ps) && i < |ps|
    ensures Clean(ps[..i]) && Clean(ps[i + 1..]) && IsName(ps[i].name) && IsText(ps[i].text)
    ensures Render(ps) == Render(ps[..i]) + (Tag(ps[i].name) + (ps[i].text + Render(ps[i + 1..])))
  {
    Around(ps, i);
    CleanAround(ps[..i], ps[i], ps[i + 1..]);
    RenderAround(ps[..i], ps[i], ps[i + 1..]);
  }

  lemma Assoc<T>(a: seq<T>, b: seq<T>, c: seq<T>)
    ensures a + b + c == a + (b + c)
  {
  }

  /** Searching the string for a tag is searching the pieces for it. */
  lemma FindIsFirstPiece(b: Block, name: string)
    requires CleanBlock(b) && IsName(name)
    ensures var i := FirstPiece(b.pieces, name);
            Find(RenderBlock(b), Tag(name))
            == if i == |b.pieces| then None else Some(|b.lead + Render(b.pieces[..i])|)
  {
    var i := FirstPiece(b.pieces, name);
    FirstPieceIsFirst(b.pieces, name);
    if i == |b.pieces| {
      MissingTag(b.lead, b.pieces, name);
    } else {
      CleanParts(b.pieces, i);
      var after := b.pieces[i].text + Render(b.pieces[i + 1..]);
      Assoc(b.lead, Render(b.pieces[..i]), Tag(name) + after);
      FindTag(b.lead, b.pieces[..i], b.pieces[i], after);
    }
  }

  lemma Middle<T>(a: seq<T>, b: seq<T>, c: seq<T>, d: seq<T>)
    ensures var s := a + (b + (c + d)); s[|a| + |b|..] == c + d && s[|a| + |b|..|a| + |b| + |c|] == c
  {
  }

  lemma ExtractBetween(a: string, tag: string, text: string, d: string)
    requires Find(a + (Tag(tag) + (text + d)), Tag(tag)) == Some(|a|)
    ensures Find(text + d, Tag("/" + tag)) == Some(|text|) ==>
              ExtractXmlTag(a + (Tag(tag) + (text + d)), tag) == Some(text)
    ensures Find(text + d, Tag("/" + tag)) == None ==> ExtractXmlTag(a + (Tag(tag) + (text + d)), tag) == None
  {
    Middle(a, Tag(tag), text, d);
  }

  /** Extracting from the string is reading from the pieces. */
  lemma ExtractIsReadField(b: Block, name: string)
    requires CleanBlock(b) && IsName(name)
    ensures ExtractXmlTag(RenderBlock(b), name) == ReadField(b.pieces, name)
  {
    var i := FirstPiece(b.pieces, name);
    FirstPieceIsFirst(b.pieces, name);
    if i == |b.pieces| {
      MissingTag(b.lead, b.pieces, name);
    } else {
      CleanParts(b.pieces, i);
      ExtractAt(b.lead, b.pieces[..i], b.pieces[i], b.pieces[i + 1..]);
    }
  }

  lemma ExtractAt(lead: string, before: seq<Piece>, p: Piece, after: seq<Piece>)
    requires IsText(lead) && Clean(before) && Lacks(before, p.name)
    requires IsName(p.name) && CleanBlock(Block(p.text, after))
    ensures ExtractXmlTag(lead + (Render(before) + (Tag(p.name) + (p.text + Render(after)))), p.name)
            == ReadUpTo(p.text, after, "/" + p.name)
  {
    var tail := Block(p.text, after);
    Assoc(lead, Render(before), Tag(p.name) + RenderBlock(tail));
    FindTag(lead, before, p, RenderBlock(tail));
    ClosesWhereRead(tail, lead + Render(before), p.name);
  }

  lemma ClosesWhereRead(tail: Block, a: string, name: string)
    requires CleanBlock(tail) && IsName(name) && Find(a + (Tag(name) + RenderBlock(tail)), Tag(name)) == Some(|a|)
    ensures ExtractXmlTag(a + (Tag(name) + RenderBlock(tail)), name) == ReadUpTo(tail.lead, tail.pieces, "/" + name)
  {
    var j := FirstPiece(tail.pieces, "/" + name);
    FindIsFirstPiece(tail, "/" + name);
    if j == |tail.pieces| {
      ExtractBetween(a, name, tail.lead, Render(tail.pieces));
    } else {
      CleanParts(tail.pieces, j);
      var text := tail.lead + Render(tail.pieces[..j]);
      var d := Tag("/" + name) + (tail.pieces[j].text + Render(tail.pieces[j + 1..]));
      Assoc(tail.lead, Render(tail.pieces[..j]), d);
      ExtractBetween(a, name, text, d);
    }
  }

  lemma Cut<T>(a: seq<T>, b: seq<T>, c: seq<T>)
    ensures var s := a + (b + c); s[..|a|] == a && s[|a| + |b|..] == c
  {
  }

  /** Splitting the string at a tag is splitting the pieces at it. */
  lemma {:induction false} SplitIsSplitBlock(b: Block, name: string)
    requires CleanBlock(b) && IsName(name)
    ensures Split(RenderBlock(b), Tag(name)) == RenderBlocks(SplitBlock(b, name))
    decreases |b.pieces|
  {
    var i := FirstPiece(b.pieces, name);
    FirstPieceIsFirst(b.pieces, name);
    if i == |b.pieces| {
      MissingTag(b.lead, b.pieces, name);
      assert RenderBlocks([b]) == [RenderBlock(b)];
    } else {
      CleanParts(b.pieces, i);
      SplitAt(b.lead, b.pieces[..i], b.pieces[i], b.pieces[i + 1..]);
      var front, back := Block(b.lead, b.pieces[..i]), Block(b.pieces[i].text, b.pieces[i + 1..]);
      SplitIsSplitBlock(back, name);
      RenderBlocksCons(front, SplitBlock(back, name));
    }
  }

  lemma RenderBlocksCons(b: Block, bs: seq<Block>)
    ensures RenderBlocks([b] + bs) == [RenderBlock(b)] + RenderBlocks(bs)
  {
    assert ([b] + bs)[1..] == bs;
  }

  lemma {:induction false} SplitAt(lead: string, before: seq<Piece>, p: Piece, after: seq<Piece>)
    requires IsText(lead) && Clean(before) && Lacks(before, p.name) && IsName(p.name)
    ensures Split(lead + (Render(before) + (Tag(p.name) + (p.text + Render(after)))), Tag(p.name))
            == [lead + Render(before)] + Split(p.text + Render(after), Tag(p.name))
  {
    var front, back := lead + Render(before), p.text + Render(after);
    Assoc(lead, Render(before), Tag(p.name) + back);
    FindTag(lead, before, p, back);
    SplitFound(front, Tag(p.name), back);
  }

  lemma {:induction false} SplitFound(front: string, tag: string, back: string)
    requires tag != "" && Find(front + (tag + back), tag) == Some(|front|)
    ensures Split(front + (tag + back), tag) == [front] + Split(back, tag)
  {
    Cut(front, tag, back);
  }

  lemma {:induction false} SplitBlocksAreClean(b: Block, name: string, k: nat)
    requires CleanBlock(b) && k < |SplitBlock(b, name)|
    ensures CleanBlock(SplitBlock(b, name)[k])
    decreases |b.pieces|
  {
    var i := FirstPiece(b.pieces, name);
    if i == |b.pieces| {
    } else {
      CleanParts(b.pieces, i);
      if k > 0 {
        SplitBlocksAreClean(Block(b.pieces[i].text, b.pieces[i + 1..]), name, k - 1);
      }
    }
  }

  lemma {:induction false} ParseBlocksCons(n: TagNames, block: string, blocks: seq<string>)
    ensures ParseBlocks(n, [block] + blocks)
            == (if ParseBlock(n, block).key != "" then [ParseBlock(n, block)] else []) + ParseBlocks(n, blocks)
    decreases blocks
  {
    var all := [block] + blocks;
    if blocks == [] {
      assert all[..0] == [];
    } else {
      var front := blocks[..|blocks| - 1];
      assert all[..|all| - 1] == [block] + front;
      ParseBlocksCons(n, block, front);
    }
  }

  predicate FieldNames(n: TagNames) { IsName(n.key) && IsName(n.size) && IsName(n.lastModified) && IsName(n.etag) }

  lemma ParseBlockIsReadObject(n: TagNames, b: Block)
    requires FieldNames(n) && CleanBlock(b)
    ensures ParseBlock(n, RenderBlock(b)) == ReadObject(n, b.pieces)
  {
    ExtractIsReadField(b, n.key);
    ExtractIsReadField(b, n.size);
    ExtractIsReadField(b, n.lastModified);
    ExtractIsReadField(b, n.etag);
  }

  lemma {:induction false} ParseBlocksIsReadObjects(n: TagNames, bs: seq<Block>)
    requires FieldNames(n) && forall k :: 0 <= k < |bs| ==> CleanBlock(bs[k])
    ensures ParseBlocks(n, RenderBlocks(bs)) == ReadObjects(n, bs)
    decreases bs
  {
    if bs == [] {
    } else {
      assert CleanBlock(bs[0]);
      ParseBlockIsReadObject(n, bs[0]);
      ParseBlocksIsReadObjects(n, bs[1..]);
      ParseBlocksCons(n, RenderBlock(bs[0]), RenderBlocks(bs[1..]));
    }
  }

  /** On every document made of text and whole tags, whatever the tags are and however they are nested,
      the string searches of the parser find exactly what a reader of whole tags finds. */
  lemma ParsedIsReadListing(document: Block)
    requires CleanBlock(document)
    ensures Parsed(RenderBlock(document)) == ReadListing(S3, document)
  {
    SourceNamesAreGood();
    var bs := SplitBlock(document, S3.contents);
    SplitIsSplitBlock(document, S3.contents);
    forall k | 0 <= k < |bs[1..]|
      ensures CleanBlock(bs[1..][k])
    {
      SplitBlocksAreClean(document, S3.contents, k + 1);
    }
    ParseBlocksIsReadObjects(S3, bs[1..]);
    assert RenderBlocks(bs)[1..] == RenderBlocks(bs[1..]);
    ExtractIsReadField(document, S3.token);
  }

  // ---------------------------------------------------------------- names

  /** A name that no closing tag can be. */
  predicate OpenName(name: string) { IsName(name) && (name == "" || name[0] != '/') }

  predicate IsField(n: TagNames, name: string) {
    name == n.key || name == n.lastModified || name == n.etag || name == n.size
  }

  /** The names are tag names, and all different. */
  predicate GoodNames(n: TagNames) {
    && OpenName(n.contents) && OpenName(n.key) && OpenName(n.lastModified) && OpenName(n.etag) && OpenName(n.size)
    && OpenName(n.token) && OpenName(n.root)
    && n.key != n.lastModified && n.key != n.etag && n.key != n.size
    && n.lastModified != n.etag && n.lastModified != n.size && n.etag != n.size
    && !IsField(n, n.contents) && !IsField(n, n.token) && !IsField(n, n.root)
    && n.contents != n.token && n.contents != n.root && n.token != n.root
  }

  /** The names in the source are. */
  lemma SourceNamesAreGood()
    ensures GoodNames(S3)
  {
    EntryNamesAreOpen();
    ListNamesAreOpen();
    TokenNameIsOpen();
    assert |S3.contents| == 8 && |S3.key| == 3 && |S3.lastModified| == 12 && |S3.etag| == 4 && |S3.size| == 4;
    assert |S3.token| == 21 && |S3.root| == 16;
    assert S3.etag[0] == 'E' && S3.size[0] == 'S';
  }

  lemma EntryNamesAreOpen()
    ensures OpenName(S3.key) && OpenName(S3.lastModified) && OpenName(S3.etag) && OpenName(S3.size)
  {
  }

  lemma ListNamesAreOpen()
    ensures OpenName(S3.root) && OpenName(S3.contents)
  {
  }

  lemma TokenNameIsOpen()
    ensures OpenName(S3.token)
  {
  }

  // ---------------------------------------------------------------- documents that list objects

  /** One entry as a server lists it; any field may be left out. */
  datatype Listed = Listed(key: Option<string>, lastModified: Option<string>, etag: Option<string>, size: Option<nat>)

  predicate Listable(o: Listed) {
    && (o.key.Some? ==> IsText(o.key.value))
    && (o.lastModified.Some? ==> IsText(o.lastModified.value))
    && (o.etag.Some? ==> IsText(o.etag.value))
    && (o.size.Some? ==> o.size.value < U64_LIMIT)
  }

  function Info(o: Listed): ObjectInfo {
    ObjectInfo(OrEmpty(o.key), if o.size.Some? then o.size.value else 0, OrEmpty(o.lastModified), OrEmpty(o.etag))
  }

  function ShownSize(o: Listed): Option<string> { if o.size.Some? then Some(Show(o.size.value)) else None }

  /** An object's entry in a document: text after the opening tag, any pieces inside that show the object,
      and any pieces between the closing tag and the next entry. */
  datatype Entry = Entry(o: Listed, text: string, inside: seq<Piece>, endText: string, after: seq<Piece>)

  /** The objects listed: entries without a key, or with an empty one, are no objects. */
  function Infos(es: seq<Entry>): seq<ObjectInfo> {
    if es == [] then []
    else (if Info(es[0].o).key != "" then [Info(es[0].o)] else []) + Infos(es[1..])
  }

  function Body(n: TagNames, e: Entry): seq<Piece> { e.inside + ([Piece("/" + n.contents, e.endText)] + e.after) }

  function Entries(n: TagNames, es: seq<Entry>, tail: seq<Piece>): seq<Piece> {
    if es == [] then tail
    else [Piece(n.contents, es[0].text)] + (Body(n, es[0]) + Entries(n, es[1..], tail))
  }

  /** No object field opens here. */
  predicate LacksFields(n: TagNames, ps: seq<Piece>) {
    Lacks(ps, n.key) && Lacks(ps, n.lastModified) && Lacks(ps, n.etag) && Lacks(ps, n.size)
  }

  /** The field is there with this value, or not there at all. */
  predicate HasField(ps: seq<Piece>, name: string, value: Option<string>) {
    ReadField(ps, name) == value && (value.None? ==> Lacks(ps, name))
  }

  predicate Shows(n: TagNames, ps: seq<Piece>, o: Listed) {
    && HasField(ps, n.key, o.key) && HasField(ps, n.lastModified, o.lastModified)
    && HasField(ps, n.etag, o.etag) && HasField(ps, n.size, ShownSize(o))
  }

  predicate GoodEntry(n: TagNames, e: Entry) {
    && Listable(e.o) && Shows(n, e.inside, e.o) && LacksFields(n, e.after)
    && Lacks(e.inside, n.contents) && Lacks(e.after, n.contents)
  }

  /** Entries that all have a key all survive, in place. */
  lemma {:induction false} KeyedEntriesSurvive(es: seq<Entry>)
    requires forall i :: 0 <= i < |es| ==> Info(es[i].o).key != ""
    ensures |Infos(es)| == |es| && forall i :: 0 <= i < |es| ==> Infos(es)[i] == Info(es[i].o)
    decreases es
  {
    if es == [] {
    } else {
      KeyedEntriesSurvive(es[1..]);
    }
  }

  lemma {:induction false} LacksConcat(a: seq<Piece>, b: seq<Piece>, name: string)
    ensures Lacks(a + b, name) <==> Lacks(a, name) && Lacks(b, name)
    ensures FirstPiece(a + b, name) == if Lacks(a, name) then |a| + FirstPiece(b, name) else FirstPiece(a, name)
    decreases a
  {
    if a == [] {
      assert a + b == b;
    } else {
      assert (a + b)[1..] == a[1..] + b;
      LacksConcat(a[1..], b, name);
    }
  }

  lemma {:induction false} ReadFieldSkips(ps: seq<Piece>, name: string)
    requires ps != [] && ps[0].name != name
    ensures ReadField(ps, name) == ReadField(ps[1..], name)
  {
    var i := FirstPiece(ps, name);
    if i < |ps| {
      assert ps[i + 1..] == ps[1..][i..];
    }
  }

  /** Reading passes over what lacks the field. */
  lemma {:induction false} ReadFieldAfter(a: seq<Piece>, b: seq<Piece>, name: string)
    requires Lacks(a, name)
    ensures ReadField(a + b, name) == ReadField(b, name)
    decreases a
  {
    if a == [] {
      assert a + b == b;
    } else {
      assert (a + b)[1..] == a[1..] + b;
      ReadFieldSkips(a + b, name);
      ReadFieldAfter(a[1..], b, name);
    }
  }

  /** Reading stops at the field. */
  lemma ReadFieldBefore(a: seq<Piece>, b: seq<Piece>, name: string)
    requires ReadField(a, name).Some?
    ensures ReadField(a + b, name) == ReadField(a, name)
  {
    var i := FirstPiece(a, name);
    LacksConcat(a, b, name);
    FirstPieceIsFirst(a, name);
    ReadUpToBefore(a[i].text, a[i + 1..], b, "/" + name);
    assert (a + b)[i + 1..] == a[i + 1..] + b;
  }

  lemma ReadUpToBefore(text: string, a: seq<Piece>, b: seq<Piece>, name: string)
    requires ReadUpTo(text, a, name).Some?
    ensures ReadUpTo(text, a + b, name) == ReadUpTo(text, a, name)
  {
    LacksConcat(a, b, name);
    FirstPieceIsFirst(a, name);
    var j := FirstPiece(a, name);
    assert (a + b)[..j] == a[..j];
  }

  lemma FieldStays(a: seq<Piece>, b: seq<Piece>, name: string, value: Option<string>)
    requires HasField(a, name, value) && Lacks(b, name)
    ensures HasField(a + b, name, value)
  {
    LacksConcat(a, b, name);
    if value.Some? {
      ReadFieldBefore(a, b, name);
    } else {
      ReadFieldAfter(a, b, name);
      FirstPieceIsFirst(b, name);
    }
  }

  lemma FieldFurther(a: seq<Piece>, b: seq<Piece>, name: string, value: Option<string>)
    requires Lacks(a, name) && HasField(b, name, value)
    ensures HasField(a + b, name, value)
  {
    ReadFieldAfter(a, b, name);
    LacksConcat(a, b, name);
  }

  lemma ShowsStays(n: TagNames, a: seq<Piece>, b: seq<Piece>, o: Listed)
    requires Shows(n, a, o) && LacksFields(n, b)
    ensures Shows(n, a + b, o)
  {
    FieldStays(a, b, n.key, o.key);
    FieldStays(a, b, n.lastModified, o.lastModified);
    FieldStays(a, b, n.etag, o.etag);
    FieldStays(a, b, n.size, ShownSize(o));
  }

  lemma ShownObjectReadsBack(n: TagNames, ps: seq<Piece>, o: Listed)
    requires Listable(o) && Shows(n, ps, o)
    ensures ReadObject(n, ps) == Info(o)
  {
    if o.size.Some? {
      ShowReadsBack(o.size.value);
      ParseUndoesShow(o.size.value);
    }
  }

  lemma LacksFieldsConcat(n: TagNames, a: seq<Piece>, b: seq<Piece>)
    ensures LacksFields(n, a + b) <==> LacksFields(n, a) && LacksFields(n, b)
  {
    LacksConcat(a, b, n.key);
    LacksConcat(a, b, n.lastModified);
    LacksConcat(a, b, n.etag);
    LacksConcat(a, b, n.size);
  }

  /** A closing tag is no opening one. */
  lemma ClosingTag(name: string, text: string, other: string)
    requires OpenName(other)
    ensures Lacks([Piece("/" + name, text)], other)
  {
    assert ("/" + name)[0] == '/';
  }

  lemma ClosingTagLacksFields(n: TagNames, name: string, text: string)
    requires GoodNames(n)
    ensures LacksFields(n, [Piece("/" + name, text)])
  {
    ClosingTag(name, text, n.key);
    ClosingTag(name, text, n.lastModified);
    ClosingTag(name, text, n.etag);
    ClosingTag(name, text, n.size);
  }

  /** The block of an entry, up to the next entry or the end, shows the entry's object. */
  lemma BlockShows(n: TagNames, e: Entry, tail: seq<Piece>)
    requires GoodNames(n) && GoodEntry(n, e) && LacksFields(n, tail)
    ensures ReadObject(n, Body(n, e) + tail) == Info(e.o)
  {
    var close := [Piece("/" + n.contents, e.endText)];
    ClosingTagLacksFields(n, n.contents, e.endText);
    LacksFieldsConcat(n, close, e.after);
    LacksFieldsConcat(n, close + e.after, tail);
    ShowsStays(n, e.inside, close + e.after + tail, e.o);
    assert Body(n, e) + tail == e.inside + (close + e.after + tail);
    ShownObjectReadsBack(n, Body(n, e) + tail, e.o);
  }

  lemma BodyLacksContents(n: TagNames, e: Entry)
    requires GoodNames(n) && GoodEntry(n, e)
    ensures Lacks(Body(n, e), n.contents)
  {
    var close := [Piece("/" + n.contents, e.endText)];
    ClosingTag(n.contents, e.endText, n.contents);
    LacksConcat(close, e.after, n.contents);
    LacksConcat(e.inside, close + e.after, n.contents);
  }

  lemma CutAround<T>(before: seq<T>, p: T, after: seq<T>)
    ensures var s := before + ([p] + after);
            s[..|before|] == before && s[|before|] == p && s[|before| + 1..] == after
  {
  }

  lemma {:induction false} SplitAtContents(lead: string, before: seq<Piece>, p: Piece, after: seq<Piece>)
    requires Lacks(before, p.name)
    ensures SplitBlock(Block(lead, before + ([p] + after)), p.name)
            == [Block(lead, before)] + SplitBlock(Block(p.text, after), p.name)
  {
    LacksConcat(before, [p] + after, p.name);
    assert FirstPiece([p] + after, p.name) == 0;
    CutAround(before, p, after);
  }

  lemma NoContents(lead: string, ps: seq<Piece>, name: string)
    requires Lacks(ps, name)
    ensures SplitBlock(Block(lead, ps), name) == [Block(lead, ps)]
  {
    FirstPieceIsFirst(ps, name);
  }

  /** From the first entry on, the blocks read as the entries' objects, in order. */
  lemma {:induction false} EntriesReadBack(
    n: TagNames, lead: string, before: seq<Piece>, es: seq<Entry>, tail: seq<Piece>)
    requires GoodNames(n) && (forall i :: 0 <= i < |es| ==> GoodEntry(n, es[i]))
    requires Lacks(before, n.contents) && Lacks(tail, n.contents) && LacksFields(n, tail)
    ensures var bs := SplitBlock(Block(lead, before + Entries(n, es, tail)), n.contents);
            && bs[0] == Block(lead, before + (if es == [] then tail else []))
            && ReadObjects(n, bs[1..]) == Infos(es)
    decreases es
  {
    if es == [] {
      LacksConcat(before, tail, n.contents);
      NoContents(lead, before + tail, n.contents);
    } else {
      var e, body := es[0], Body(n, es[0]);
      assert GoodEntry(n, e);
      BodyLacksContents(n, e);
      var bs := SplitBlock(Block(e.text, body + Entries(n, es[1..], tail)), n.contents);
      SplitAtContents(lead, before, Piece(n.contents, e.text), body + Entries(n, es[1..], tail));
      EntriesReadBack(n, e.text, body, es[1..], tail);
      BlockShows(n, e, if es[1..] == [] then tail else []);
      FirstEntryReadsBack(n, es, bs);
      assert before + [] == before && ([Block(lead, before)] + bs)[1..] == bs;
    }
  }

  lemma {:induction false} FirstEntryReadsBack(n: TagNames, es: seq<Entry>, bs: seq<Block>)
    requires es != [] && bs != []
    requires ReadObject(n, bs[0].pieces) == Info(es[0].o) && ReadObjects(n, bs[1..]) == Infos(es[1..])
    ensures ReadObjects(n, bs) == Infos(es)
  {
  }

  /** Parsing a listing gives back exactly the entries that have a key, in order, with defaults for
      omitted fields and nothing taken from a neighbour, and exactly the continuation token; whatever
      other elements, in whatever order, stand before, in, between and after the entries, and wherever
      the token stands. */
  lemma ParsingUndoesRendering(
    lead: string, head: seq<Piece>, es: seq<Entry>, tail: seq<Piece>, token: Option<string>)
    requires CleanBlock(Block(lead, head + Entries(S3, es, tail)))
    requires forall i :: 0 <= i < |es| ==> GoodEntry(S3, es[i])
    requires Lacks(head, S3.contents) && Lacks(tail, S3.contents) && LacksFields(S3, tail)
    requires HasField(head + Entries(S3, es, tail), S3.token, token)
    ensures Parsed(lead + Render(head + Entries(S3, es, tail))) == (Infos(es), token)
  {
    SourceNamesAreGood();
    ParsedIsReadListing(Block(lead, head + Entries(S3, es, tail)));
    EntriesReadBack(S3, lead, head, es, tail);
  }

  // ---------------------------------------------------------------- a listing as S3 writes it

  datatype Field = Field(name: string, value: Option<string>)

  /** An element with text content, or nothing if the field is omitted. */
  function Element(name: string, value: Option<string>): seq<Piece> {
    if value.Some? then [Piece(name, value.value), Piece("/" + name, "")] else []
  }

  function Elements(fs: seq<Field>): seq<Piece> {
    if fs == [] then [] else Element(fs[0].name, fs[0].value) + Elements(fs[1..])
  }

  predicate GoodFields(fs: seq<Field>) {
    forall i :: 0 <= i < |fs| ==> OpenName(fs[i].name) && (fs[i].value.Some? ==> IsText(fs[i].value.value))
  }

  lemma ElementLacks(name: string, value: Option<string>, other: string)
    requires OpenName(other) && name != other
    ensures Lacks(Element(name, value), other)
  {
    assert ("/" + name)[0] == '/';
  }

  lemma ElementReadsBack(name: string, value: Option<string>)
    ensures HasField(Element(name, value), name, value)
  {
    if value.Some? {
      var e := Element(name, value);
      assert e[1..] == [Piece("/" + name, "")] && e[1..][..0] == [];
      assert value.value + Render([]) == value.value;
    }
  }

  lemma {:induction false} ElementsLack(fs: seq<Field>, name: string)
    requires OpenName(name) && forall i :: 0 <= i < |fs| ==> fs[i].name != name
    ensures Lacks(Elements(fs), name)
    decreases fs
  {
    if fs == [] {
    } else {
      ElementsLack(fs[1..], name);
      ElementLacks(fs[0].name, fs[0].value, name);
      LacksConcat(Element(fs[0].name, fs[0].value), Elements(fs[1..]), name);
    }
  }

  /** In a row of optional elements with different names, every field reads back. */
  lemma {:induction false} FieldReadsBack(fs: seq<Field>, i: nat)
    requires i < |fs| && OpenName(fs[i].name) && (forall j :: 0 <= j < |fs| && j != i ==> fs[j].name != fs[i].name)
    ensures HasField(Elements(fs), fs[i].name, fs[i].value)
    decreases fs
  {
    var e, rest := Element(fs[0].name, fs[0].value), Elements(fs[1..]);
    if i == 0 {
      ElementReadsBack(fs[0].name, fs[0].value);
      ElementsLack(fs[1..], fs[0].name);
      FieldStays(e, rest, fs[0].name, fs[0].value);
    } else {
      ElementLacks(fs[0].name, fs[0].value, fs[i].name);
      FieldReadsBack(fs[1..], i - 1);
      FieldFurther(e, rest, fs[i].name, fs[i].value);
    }
  }

  lemma {:induction false} ElementsAreClean(fs: seq<Field>)
    requires GoodFields(fs)
    ensures Clean(Elements(fs))
    decreases fs
  {
    if fs == [] {
    } else {
      ElementsAreClean(fs[1..]);
      ElementIsClean(fs[0].name, fs[0].value);
      Concat(Element(fs[0].name, fs[0].value), Elements(fs[1..]), "");
    }
  }

  lemma ElementIsClean(name: string, value: Option<string>)
    requires IsName(name) && (value.Some? ==> IsText(value.value))
    ensures Clean(Element(name, value))
  {
  }

  function FieldsOf(n: TagNames, o: Listed): seq<Field> {
    [Field(n.key, o.key), Field(n.lastModified, o.lastModified), Field(n.etag, o.etag), Field(n.size, ShownSize(o))]
  }

  /** The entry with its fields in order and nothing else, but for what comes after it. */
  function Plain(n: TagNames, o: Listed, after: seq<Piece>): Entry { Entry(o, "", Elements(FieldsOf(n, o)), "", after) }

  /** Plain entries, with `t` after the k-th of them. */
  function PlainEntries(n: TagNames, objects: seq<Listed>, k: nat, t: seq<Piece>): seq<Entry> {
    seq(|objects|, i requires 0 <= i < |objects| => Plain(n, objects[i], if i + 1 == k then t else []))
  }

  function PlainHead(n: TagNames, k: nat, t: seq<Piece>): seq<Piece> {
    [Piece(n.root, "")] + (if k == 0 then t else [])
  }

  function PlainTail(n: TagNames): seq<Piece> { [Piece("/" + n.root, "")] }

  /** A listing with the continuation token after the first `k` entries. */
  function Listing(n: TagNames, objects: seq<Listed>, token: Option<string>, k: nat): seq<Piece> {
    var t := Element(n.token, token);
    PlainHead(n, k, t) + Entries(n, PlainEntries(n, objects, k, t), PlainTail(n))
  }

  lemma PlainShows(n: TagNames, o: Listed)
    requires GoodNames(n)
    ensures Shows(n, Elements(FieldsOf(n, o)), o)
  {
    var fs := FieldsOf(n, o);
    FieldReadsBack(fs, 0);
    FieldReadsBack(fs, 1);
    FieldReadsBack(fs, 2);
    FieldReadsBack(fs, 3);
  }

  lemma FieldsAreGood(n: TagNames, o: Listed)
    requires GoodNames(n) && Listable(o)
    ensures GoodFields(FieldsOf(n, o))
  {
    if o.size.Some? {
      ShowReadsBack(o.size.value);
    }
  }

  lemma TokenLacks(n: TagNames, token: Option<string>)
    requires GoodNames(n)
    ensures LacksFields(n, Element(n.token, token)) && Lacks(Element(n.token, token), n.contents)
  {
    ElementLacks(n.token, token, n.key);
    ElementLacks(n.token, token, n.lastModified);
    ElementLacks(n.token, token, n.etag);
    ElementLacks(n.token, token, n.size);
    ElementLacks(n.token, token, n.contents);
  }

  lemma PlainIsGood(n: TagNames, o: Listed, after: seq<Piece>)
    requires GoodNames(n) && Listable(o) && LacksFields(n, after) && Lacks(after, n.contents)
    ensures GoodEntry(n, Plain(n, o, after))
  {
    PlainShows(n, o);
    ElementsLack(FieldsOf(n, o), n.contents);
  }

  predicate CleanEntry(e: Entry) { IsText(e.text) && Clean(e.inside) && IsText(e.endText) && Clean(e.after) }

  lemma {:induction false} EntriesAreClean(n: TagNames, es: seq<Entry>, tail: seq<Piece>)
    requires IsName(n.contents) && (forall i :: 0 <= i < |es| ==> CleanEntry(es[i])) && Clean(tail)
    ensures Clean(Entries(n, es, tail))
    decreases es
  {
    if es == [] {
    } else {
      EntriesAreClean(n, es[1..], tail);
      BodyIsClean(n, es[0]);
      Concat(Body(n, es[0]), Entries(n, es[1..], tail), "");
      CleanAround([], Piece(n.contents, es[0].text), Body(n, es[0]) + Entries(n, es[1..], tail));
      assert [] + Entries(n, es, tail) == Entries(n, es, tail);
    }
  }

  lemma BodyIsClean(n: TagNames, e: Entry)
    requires IsName(n.contents) && CleanEntry(e)
    ensures Clean(Body(n, e))
  {
    CleanAround(e.inside, Piece("/" + n.contents, e.endText), e.after);
  }

  /** Nothing in the entries, but perhaps what follows the k-th, opens the token. */
  predicate TokenOnlyAfter(n: TagNames, es: seq<Entry>, k: int) {
    forall i :: 0 <= i < |es| ==> Lacks(es[i].inside, n.token) && (i + 1 == k || Lacks(es[i].after, n.token))
  }

  lemma BodyOpensToken(n: TagNames, e: Entry, value: Option<string>)
    requires GoodNames(n) && Lacks(e.inside, n.token) && HasField(e.after, n.token, value)
    ensures HasField(Body(n, e), n.token, value)
  {
    var close := [Piece("/" + n.contents, e.endText)];
    ClosingTag(n.contents, e.endText, n.token);
    FieldFurther(close, e.after, n.token, value);
    FieldFurther(e.inside, close + e.after, n.token, value);
  }

  lemma LacksIsNone(ps: seq<Piece>, name: string)
    ensures Lacks(ps, name) <==> HasField(ps, name, None)
  {
    FirstPieceIsFirst(ps, name);
  }

  /** The token after the k-th entry is the token of the whole; with no such entry there is none. */
  lemma {:induction false} TokenAmongEntries(
    n: TagNames, es: seq<Entry>, tail: seq<Piece>, k: int, value: Option<string>)
    requires GoodNames(n) && TokenOnlyAfter(n, es, k) && Lacks(tail, n.token)
    requires if 1 <= k <= |es| then HasField(es[k - 1].after, n.token, value) else value.None?
    ensures HasField(Entries(n, es, tail), n.token, value)
    decreases es
  {
    if es == [] {
      LacksIsNone(tail, n.token);
    } else {
      var here := if k == 1 then value else None;
      LacksIsNone(es[0].after, n.token);
      BodyOpensToken(n, es[0], here);
      var body, rest := Body(n, es[0]), Entries(n, es[1..], tail);
      TokenAmongEntries(n, es[1..], tail, k - 1, if k == 1 then None else value);
      LacksIsNone(body, n.token);
      LacksIsNone(rest, n.token);
      if k == 1 {
        FieldStays(body, rest, n.token, value);
      } else {
        FieldFurther(body, rest, n.token, value);
      }
      FieldFurther([Piece(n.contents, es[0].text)], body + rest, n.token, value);
    }
  }

  lemma PlainEntriesAreGood(n: TagNames, objects: seq<Listed>, k: nat, token: Option<string>)
    requires GoodNames(n) && (forall i :: 0 <= i < |objects| ==> Listable(objects[i]))
    requires token.Some? ==> IsText(token.value)
    ensures var es := PlainEntries(n, objects, k, Element(n.token, token));
            (forall i :: 0 <= i < |es| ==> GoodEntry(n, es[i]) && CleanEntry(es[i])) && TokenOnlyAfter(n, es, k)
  {
    var t := Element(n.token, token);
    var es := PlainEntries(n, objects, k, t);
    forall i | 0 <= i < |es|
      ensures GoodEntry(n, es[i]) && CleanEntry(es[i])
      ensures Lacks(es[i].inside, n.token) && (i + 1 == k || Lacks(es[i].after, n.token))
    {
      PlainEntryIsGood(n, objects[i], if i + 1 == k then token else None);
    }
  }

  lemma PlainEntryIsGood(n: TagNames, o: Listed, token: Option<string>)
    requires GoodNames(n) && Listable(o) && (token.Some? ==> IsText(token.value))
    ensures var e := Plain(n, o, Element(n.token, token)); GoodEntry(n, e) && CleanEntry(e) && Lacks(e.inside, n.token)
  {
    TokenLacks(n, token);
    PlainIsGood(n, o, Element(n.token, token));
    FieldsAreGood(n, o);
    ElementsAreClean(FieldsOf(n, o));
    ElementIsClean(n.token, token);
    ElementsLack(FieldsOf(n, o), n.token);
  }

  lemma PlainFrame(n: TagNames, k: nat, token: Option<string>)
    requires GoodNames(n) && (token.Some? ==> IsText(token.value))
    ensures var head := PlainHead(n, k, Element(n.token, token));
            && Clean(head) && Lacks(head, n.contents) && HasField(head, n.token, if k == 0 then token else None)
    ensures var tail := PlainTail(n);
            Clean(tail) && Lacks(tail, n.contents) && Lacks(tail, n.token) && LacksFields(n, tail)
  {
    var root, t := [Piece(n.root, "")], if k == 0 then Element(n.token, token) else [];
    ClosingTagLacksFields(n, n.root, "");
    ClosingTag(n.root, "", n.contents);
    ClosingTag(n.root, "", n.token);
    TokenLacks(n, token);
    ElementIsClean(n.token, token);
    Concat(root, t, n.contents);
    ElementReadsBack(n.token, token);
    LacksIsNone([], n.token);
    FieldFurther(root, t, n.token, if k == 0 then token else None);
  }

  /** In particular for the listing that writes the fields of each object in order and the token before,
      between or after the entries. */
  lemma {:induction false} S3ListingReadsBack(objects: seq<Listed>, token: Option<string>, k: nat)
    requires forall i :: 0 <= i < |objects| ==> Listable(objects[i])
    requires (token.Some? ==> IsText(token.value)) && k <= |objects|
    ensures Parsed(Render(Listing(S3, objects, token, k)))
            == (Infos(PlainEntries(S3, objects, k, Element(S3.token, token))), token)
  {
    SourceNamesAreGood();
    var t := Element(S3.token, token);
    var head, es, tail := PlainHead(S3, k, t), PlainEntries(S3, objects, k, t), PlainTail(S3);
    PlainFrame(S3, k, token);
    PlainEntriesAreGood(S3, objects, k, token);
    EntriesAreClean(S3, es, tail);
    Concat(head, Entries(S3, es, tail), "");
    ElementReadsBack(S3.token, token);
    ListingToken(S3, head, es, tail, k, token);
    ParsingUndoesRendering("", head, es, tail, token);
    assert "" + Render(head + Entries(S3, es, tail)) == Render(head + Entries(S3, es, tail));
  }

  lemma ListingToken(n: TagNames, head: seq<Piece>, es: seq<Entry>, tail: seq<Piece>, k: nat, token: Option<string>)
    requires GoodNames(n) && TokenOnlyAfter(n, es, k) && Lacks(tail, n.token) && k <= |es|
    requires HasField(head, n.token, if k == 0 then token else None)
    requires k > 0 ==> HasField(es[k - 1].after, n.token, token)
    ensures HasField(head + Entries(n, es, tail), n.token, token)
  {
    TokenAmongEntries(n, es, tail, k, if k == 0 then None else token);
    LacksIsNone(head, n.token);
    LacksIsNone(Entries(n, es, tail), n.token);
    if k == 0 {
      FieldStays(head, Entries(n, es, tail), n.token, token);
    } else {
      FieldFurther(head, Entries(n, es, tail), n.token, token);
    }
  }

  // ---------------------------------------------------------------- one listing written out

  lemma FourElements(a: Field, b: Field, c: Field, d: Field)
    requires a.value.Some? && b.value.Some? && c.value.Some? && d.value.Some?
    ensures Elements([a, b, c, d])
            == [Piece(a.name, a.value.value), Piece("/" + a.name, ""),
                Piece(b.name, b.value.value), Piece("/" + b.name, ""),
                Piece(c.name, c.value.value), Piece("/" + c.name, ""),
                Piece(d.name, d.value.value), Piece("/" + d.name, "")]
  {
    var fs := [a, b, c, d];
    assert fs[1..] == [b, c, d] && fs[1..][1..] == [c, d] && fs[1..][1..][1..] == [d] && fs[1..][1..][1..][1..] == [];
    assert Elements([d]) == Element(d.name, d.value);
    assert Elements([c, d]) == Element(c.name, c.value) + Elements([d]);
    assert Elements([b, c, d]) == Element(b.name, b.value) + Elements([c, d]);
  }

  lemma OneEntryListing(n: TagNames, o: Listed, token: string)
    ensures Listing(n, [o], Some(token), 0)
            == [Piece(n.root, ""), Piece(n.token, token), Piece("/" + n.token, ""), Piece(n.contents, "")]
               + Elements(FieldsOf(n, o)) + [Piece("/" + n.contents, ""), Piece("/" + n.root, "")]
  {
    var t := Element(n.token, Some(token));
    var e := Plain(n, o, []);
    assert PlainEntries(n, [o], 0, t) == [e];
    assert [e][1..] == [];
    assert Entries(n, [e], PlainTail(n)) == [Piece(n.contents, "")] + (Body(n, e) + PlainTail(n));
  }

  lemma ClosingNames()
    ensures "/" + S3.root == "/ListBucketResult" && "/" + S3.contents == "/Contents" && "/" + S3.key == "/Key"
    ensures "/" + S3.lastModified == "/LastModified" && "/" + S3.etag == "/ETag" && "/" + S3.size == "/Size"
    ensures "/" + S3.token == "/NextContinuationToken"
  {
  }

  /** The names as S3 spells them: each element goes to the field of its name. */
  lemma WrittenOut(key: string, modified: string, etag: string, size: nat, token: string)
    requires key != "" && IsText(key) && IsText(modified) && IsText(etag) && size < U64_LIMIT && IsText(token)
    ensures var document :=
              [Piece("ListBucketResult", ""),
               Piece("NextContinuationToken", token), Piece("/NextContinuationToken", ""),
               Piece("Contents", "")]
              + [Piece("Key", key), Piece("/Key", ""), Piece("LastModified", modified), Piece("/LastModified", ""),
                 Piece("ETag", etag), Piece("/ETag", ""), Piece("Size", Show(size)), Piece("/Size", "")]
              + [Piece("/Contents", ""), Piece("/ListBucketResult", "")];
            Parsed(Render(document)) == ([ObjectInfo(key, size, modified, etag)], Some(token))
  {
    var o := Listed(Some(key), Some(modified), Some(etag), Some(size));
    S3ListingReadsBack([o], Some(token), 0);
    OneEntryListing(S3, o, token);
    ClosingNames();
    var fs := FieldsOf(S3, o);
    FourElements(fs[0], fs[1], fs[2], fs[3]);
    OnlyInfo(o, Element(S3.token, Some(token)));
  }

  lemma OnlyInfo(o: Listed, t: seq<Piece>)
    requires Info(o).key != ""
    ensures Infos(PlainEntries(S3, [o], 0, t)) == [Info(o)]
  {
    var es := PlainEntries(S3, [o], 0, t);
    assert es[1..] == [] && es[0].o == o;
  }

  /** And what a piece is: its tag in angle brackets, then its text. */
  lemma RenderedElement(text: string)
    ensures Render([Piece("Key", text), Piece("/Key", "")]) == "<Key>" + text + "</Key>"
  {
    assert Tag("Key") == "<Key>" && Tag("/Key") == "</Key>";
    assert [Piece("Key", text), Piece("/Key", "")][1..] == [Piece("/Key", "")];
    assert [Piece("/Key", "")][1..] == [];
    assert Render([Piece("/Key", "")]) == "</Key>";
  }
}
