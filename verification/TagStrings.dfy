/**
 The tag string that crosses the foreign function interface: written in Python as
 `k=v,k=v`, taken apart in Rust.
 */
module TagStrings {
  import opened Wrappers

  // ------------------------------------------------------------------ splitting

  /** `str::split` on one character: never empty, and the separators are gone. */
  function Split(s: string, c: char): (r: seq<string>)
    ensures |r| > 0
  {
    if s == "" then [""]
    else
      var rest := Split(s[1..], c);
      if s[0] == c then [""] + rest else [[s[0]] + rest[0]] + rest[1..]
  }

  lemma {:induction false} SplitClean(s: string, c: char)
    requires c !in s
    ensures Split(s, c) == [s]
  {
    if s != "" {
      SplitClean(s[1..], c);
      assert [s[0]] + s[1..] == s;
    }
  }

  /** What one more character in front does. */
  function PutFront(x: char, parts: seq<string>, c: char): seq<string>
    requires parts != []
  {
    if x == c then [""] + parts else [[x] + parts[0]] + parts[1..]
  }

  lemma SplitFront(x: char, s: string, c: char)
    ensures Split([x] + s, c) == PutFront(x, Split(s, c), c)
  {
    assert ([x] + s)[1..] == s;
  }

  lemma PutFrontConcat(x: char, parts: seq<string>, more: seq<string>, c: char)
    requires parts != []
    ensures PutFront(x, parts + more, c) == PutFront(x, parts, c) + more
  {
    assert (parts + more)[0] == parts[0] && (parts + more)[1..] == parts[1..] + more;
    assert [""] + (parts + more) == [""] + parts + more;
  }

  /** Splitting at a separator splits both sides. */
  lemma {:induction false} SplitAt(s: string, t: string, c: char)
    ensures Split(s + [c] + t, c) == Split(s, c) + Split(t, c)
  {
    if s == "" {
      SplitFront(c, t, c);
      assert s + [c] + t == [c] + t;
    } else {
      var x, rest := s[0], s[1..];
      SplitAt(rest, t, c);
      SplitFront(x, rest + [c] + t, c);
      SplitFront(x, rest, c);
      PutFrontConcat(x, Split(rest, c), Split(t, c), c);
      assert s + [c] + t == [x] + (rest + [c] + t) && s == [x] + rest;
    }
  }

  lemma {:induction false} SplitDirty(s: string, c: char)
    requires c in s
    ensures |Split(s, c)| > 1
  {
    if s[0] != c { SplitDirty(s[1..], c); }
  }

  lemma {:induction false} FirstPartClean(s: string, c: char)
    ensures c !in Split(s, c)[0]
  {
    if s != "" && s[0] != c { FirstPartClean(s[1..], c); }
  }

  // -------------------------------------------------------------- the two sides

  type Pair = (string, string)

  function PairString(p: Pair): string {
    p.0 + "=" + p.1
  }

  /** The items of the dictionary, in its order, joined by commas. */
  function TagsToString(tags: seq<Pair>): string {
    if tags == [] then ""
    else if |tags| == 1 then PairString(tags[0])
    else PairString(tags[0]) + "," + TagsToString(tags[1..])
  }

  /** One `key=value`; None where the second `unwrap` panics. */
  function ParsePair(s: string): Option<Pair> {
    var parts := Split(s, '=');
    if |parts| < 2 then None else Some((parts[0], parts[1]))
  }

  function ParsePairs(pieces: seq<string>): Option<seq<Pair>> {
    if pieces == [] then Some([])
    else
      var init, last := ParsePairs(pieces[..|pieces| - 1]), ParsePair(pieces[|pieces| - 1]);
      if init.Some? && last.Some? then Some(init.value + [last.value]) else None
  }

  /** None stands for the panic on a piece without '='. */
  method StringToTags(tags: string) returns (r: Option<seq<Pair>>)
    ensures r == if tags == "" then Some([]) else ParsePairs(Split(tags, ','))
  {
    var tagsVec: seq<Pair> := [];
    if tags == "" {
      return Some(tagsVec);
    }
    var pieces := Split(tags, ',');
    for i := 0 to |pieces|
      invariant ParsePairs(pieces[..i]) == Some(tagsVec)
    {
      assert pieces[..i + 1][..i] == pieces[..i];
      var tagSplit := Split(pieces[i], '=');
      if |tagSplit| < 2 {
        PairsFail(pieces, i + 1);
        return None;
      }
      tagsVec := tagsVec + [(tagSplit[0], tagSplit[1])];
    }
    assert pieces[..|pieces|] == pieces;
    r := Some(tagsVec);
  }

  lemma {:induction false} PairsFail(pieces: seq<string>, i: nat)
    requires i <= |pieces| && ParsePairs(pieces[..i]).None?
    ensures ParsePairs(pieces).None?
    decreases |pieces|
  {
    if i == |pieces| {
      assert pieces[..i] == pieces;
    } else {
      var init := pieces[..|pieces| - 1];
      assert init[..i] == pieces[..i];
      PairsFail(init, i);
    }
  }

  /** What the Rust side makes of what the Python side wrote. */
  function Transferred(tags: seq<Pair>): Option<seq<Pair>> {
    var s := TagsToString(tags);
    if s == "" then Some([]) else ParsePairs(Split(s, ','))
  }

  // ------------------------------------------------------------------ round trip

  predicate Clean(p: Pair) {
    ',' !in p.0 && '=' !in p.0 && ',' !in p.1 && '=' !in p.1
  }

  function PairStrings(tags: seq<Pair>): (r: seq<string>)
    ensures |r| == |tags|
  {
    if tags == [] then [] else [PairString(tags[0])] + PairStrings(tags[1..])
  }

  predicate NoComma(p: Pair) {
    ',' !in PairString(p)
  }

  /** The pieces are the pairs, one each, if no comma is inside; otherwise there are too many. */
  lemma {:induction false} Pieces(tags: seq<Pair>)
    requires tags != []
    ensures var pieces := Split(TagsToString(tags), ',');
            if forall p | p in tags :: NoComma(p) then pieces == PairStrings(tags) else |pieces| > |tags|
  {
    var first := PairString(tags[0]);
    if NoComma(tags[0]) { SplitClean(first, ','); } else { SplitDirty(first, ','); }
    if |tags| > 1 {
      Pieces(tags[1..]);
      SplitAt(first, TagsToString(tags[1..]), ',');
      assert first + "," + TagsToString(tags[1..]) == first + [','] + TagsToString(tags[1..]);
      assert tags == [tags[0]] + tags[1..];
    } else {
      assert tags == [tags[0]] && PairStrings(tags) == [first];
    }
  }

  /** A pair survives exactly if neither side has a '='. */
  lemma PairSurvivesIff(p: Pair)
    ensures ParsePair(PairString(p)) == Some(p) <==> '=' !in p.0 && '=' !in p.1
  {
    assert PairString(p) == p.0 + ['='] + p.1;
    SplitAt(p.0, p.1, '=');
    FirstPartClean(p.0, '=');
    FirstPartClean(p.1, '=');
    if '=' !in p.0 {
      SplitClean(p.0, '=');
      if '=' !in p.1 { SplitClean(p.1, '='); }
    }
  }

  lemma {:induction false} ParsePairsAt(pieces: seq<string>, i: nat)
    requires ParsePairs(pieces).Some? && i < |pieces|
    ensures |ParsePairs(pieces).value| == |pieces| && ParsePair(pieces[i]) == Some(ParsePairs(pieces).value[i])
  {
    var n := |pieces| - 1;
    if n > 0 { ParsePairsAt(pieces[..n], if i < n then i else 0); }
  }

  lemma {:induction false} ParsePairsLength(pieces: seq<string>)
    ensures ParsePairs(pieces).Some? ==> |ParsePairs(pieces).value| == |pieces|
  {
    if pieces != [] { ParsePairsLength(pieces[..|pieces| - 1]); }
  }

  lemma {:induction false} PairStringsAt(tags: seq<Pair>, i: nat)
    requires i < |tags|
    ensures PairStrings(tags)[i] == PairString(tags[i])
  {
    if i > 0 { PairStringsAt(tags[1..], i - 1); }
  }

  lemma {:induction false} ParsePairsAll(pieces: seq<string>, tags: seq<Pair>)
    requires |pieces| == |tags| && forall i | 0 <= i < |tags| :: ParsePair(pieces[i]) == Some(tags[i])
    ensures ParsePairs(pieces) == Some(tags)
  {
    if pieces != [] {
      var n := |pieces| - 1;
      ParsePairsAll(pieces[..n], tags[..n]);
      assert tags == tags[..n] + [tags[n]];
    }
  }

  lemma CleanPair(p: Pair)
    ensures Clean(p) <==> NoComma(p) && '=' !in p.0 && '=' !in p.1
  {
    var s := PairString(p);
    assert ',' in p.0 ==> ',' in s by {
      if ',' in p.0 {
        var i :| 0 <= i < |p.0| && p.0[i] == ',';
        assert s[i] == ',';
      }
    }
    assert ',' in p.1 ==> ',' in s by {
      if ',' in p.1 {
        var i :| 0 <= i < |p.1| && p.1[i] == ',';
        assert s[|p.0| + 1 + i] == ',';
      }
    }
  }

  /** A list of tags, also the empty one, arrives as it was exactly if no key or value has a ',' or '='. */
  lemma TransferredIff(tags: seq<Pair>)
    ensures Transferred(tags) == Some(tags) <==> forall p | p in tags :: Clean(p)
  {
    if tags != [] {
      Pieces(tags);
      var pieces := Split(TagsToString(tags), ',');
      assert '=' in PairString(tags[0]) && TagsToString(tags) != "" by { assert PairString(tags[0])[|tags[0].0|] == '='; }
      forall p | p in tags ensures Clean(p) <==> NoComma(p) && ParsePair(PairString(p)) == Some(p) {
        CleanPair(p);
        PairSurvivesIff(p);
      }
      ParsePairsLength(pieces);
      if forall p | p in tags :: NoComma(p) {
        forall i | 0 <= i < |tags| ensures pieces[i] == PairString(tags[i]) { PairStringsAt(tags, i); }
        if Transferred(tags) == Some(tags) {
          forall p | p in tags ensures Clean(p) {
            var i :| 0 <= i < |tags| && tags[i] == p;
            ParsePairsAt(pieces, i);
          }
        } else if forall p | p in tags :: Clean(p) {
          ParsePairsAll(pieces, tags);
        }
      }
    }
  }

  // ------------------------------------------------------------------ the panic

  ghost predicate AnyBare(pieces: seq<string>) {
    exists i :: 0 <= i < |pieces| && '=' !in pieces[i]
  }

  /** Between the commas of the pair's string there is a piece without '='. */
  ghost predicate HasBarePiece(p: Pair) {
    AnyBare(Split(PairString(p), ','))
  }

  function AllPieces(tags: seq<Pair>): seq<string> {
    if tags == [] then [] else Split(PairString(tags[0]), ',') + AllPieces(tags[1..])
  }

  lemma {:induction false} PiecesAre(tags: seq<Pair>)
    requires tags != []
    ensures Split(TagsToString(tags), ',') == AllPieces(tags)
  {
    if |tags| > 1 {
      PiecesAre(tags[1..]);
      SplitAt(PairString(tags[0]), TagsToString(tags[1..]), ',');
      assert PairString(tags[0]) + "," + TagsToString(tags[1..]) == PairString(tags[0]) + [','] + TagsToString(tags[1..]);
    } else {
      assert AllPieces(tags[1..]) == [];
    }
  }

  lemma ParsePairFails(s: string)
    ensures ParsePair(s).None? <==> '=' !in s
  {
    if '=' in s { SplitDirty(s, '='); } else { SplitClean(s, '='); }
  }

  lemma AnyBareConcat(a: seq<string>, b: seq<string>)
    ensures AnyBare(a + b) <==> AnyBare(a) || AnyBare(b)
  {
    if AnyBare(a + b) {
      var i :| 0 <= i < |a + b| && '=' !in (a + b)[i];
      if i < |a| { assert '=' !in a[i]; } else { assert '=' !in b[i - |a|]; }
    }
    if AnyBare(a) {
      var i :| 0 <= i < |a| && '=' !in a[i];
      assert (a + b)[i] == a[i];
    }
    if AnyBare(b) {
      var i :| 0 <= i < |b| && '=' !in b[i];
      assert (a + b)[|a| + i] == b[i];
    }
  }

  lemma {:induction false} ParsePairsFails(pieces: seq<string>)
    ensures ParsePairs(pieces).None? <==> AnyBare(pieces)
  {
    if pieces != [] {
      var n := |pieces| - 1;
      ParsePairsFails(pieces[..n]);
      ParsePairFails(pieces[n]);
      AnyBareConcat(pieces[..n], [pieces[n]]);
      assert pieces == pieces[..n] + [pieces[n]] && [pieces[n]][0] == pieces[n];
    }
  }

  lemma {:induction false} AllPiecesBare(tags: seq<Pair>)
    ensures AnyBare(AllPieces(tags)) <==> exists p :: p in tags && HasBarePiece(p)
  {
    if tags != [] {
      AllPiecesBare(tags[1..]);
      AnyBareConcat(Split(PairString(tags[0]), ','), AllPieces(tags[1..]));
      assert tags == [tags[0]] + tags[1..];
      if HasBarePiece(tags[0]) { assert tags[0] in tags; }
      if p :| p in tags[1..] && HasBarePiece(p) { assert p in tags; }
    }
  }

  /** The Rust side panics exactly if some tag has, between its commas, a piece without '='. */
  lemma TransferPanicsIff(tags: seq<Pair>)
    ensures Transferred(tags).None? <==> exists p :: p in tags && HasBarePiece(p)
  {
    if tags != [] {
      PiecesAre(tags);
      ParsePairsFails(AllPieces(tags));
      AllPiecesBare(tags);
      assert TagsToString(tags) != "" by { assert PairString(tags[0])[|tags[0].0|] == '='; }
    }
  }

  /** The value "a,b" is such a one. */
  lemma TransferCanPanic()
    ensures Transferred([("k", "a,b")]).None?
  {
    var p := ("k", "a,b");
    assert PairString(p) == "k=a" + [','] + "b";
    SplitAt("k=a", "b", ',');
    SplitClean("k=a", ',');
    SplitClean("b", ',');
    assert Split(PairString(p), ',')[1] == "b" && '=' !in "b";
    assert HasBarePiece(p) && p in [p];
    TransferPanicsIff([p]);
  }
}
