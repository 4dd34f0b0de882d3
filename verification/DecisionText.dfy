/**
 Cutting a decision document into transport messages (`src/channels/decision-channels.ts`,
 lines 1265 to 1345). Texts are sequences of UTF-16 code units, as in the source.
 */
module DecisionText {
  import opened Options

  newtype CodeUnit = x: int | 0 <= x < 0x1_0000

  type Text = seq<CodeUnit>

  const NEWLINE: CodeUnit := 10
  const MAX_TRANSPORT_PARTS: nat := 20

  predicate High(u: CodeUnit) { 0xD800 <= u <= 0xDBFF }

  predicate Low(u: CodeUnit) { 0xDC00 <= u <= 0xDFFF }

  /** The code point of a surrogate pair, by section 2.2 of RFC 2781. */
  function PairPoint(high: CodeUnit, low: CodeUnit): int {
    0x10000 + (high as int - 0xD800) * 0x400 + (low as int - 0xDC00)
  }

  /** The pairs spell the code points beyond the basic plane: each of them, and nothing else. */
  lemma PairsSpell(point: int)
    ensures 0x10000 <= point <= 0x10FFFF <==>
      exists high, low :: High(high) && Low(low) && PairPoint(high, low) == point
  {
    if 0x10000 <= point <= 0x10FFFF {
      var rest := point - 0x10000;
      var (high, low) := ((0xD800 + rest / 0x400) as CodeUnit, (0xDC00 + rest % 0x400) as CodeUnit);
      assert High(high) && Low(low) && PairPoint(high, low) == point;
    }
  }

  /** A cut in front of `end` separates the halves of a surrogate pair. */
  predicate CutsPair(value: Text, end: nat) {
    0 < end < |value| && High(value[end - 1]) && Low(value[end])
  }

  // ------------------------------------------------------------------- splitting

  function CodePointBoundary(value: Text, limit: nat): (end: nat)
    requires 0 < limit && value != []
    ensures 0 < end <= |value| && end <= limit
    ensures limit < |value| ==> limit - 1 <= end
    ensures 1 < limit < |value| ==> !CutsPair(value, end)
  {
    var end := if limit < |value| then limit else |value|;
    var shortened := if High(value[end - 1]) && end < |value| then end - 1 else end;
    if shortened < 1 then 1 else shortened
  }

  /** `lastIndexOf("\n", from)`. */
  function LastNewline(value: Text, from: int): (i: int)
    requires from < |value|
    ensures -1 <= i <= from || (i == -1 && from < 0)
    ensures 0 <= i ==> value[i] == NEWLINE
    ensures forall k :: i < k <= from && 0 <= k ==> value[k] != NEWLINE
  {
    if from < 0 then -1 else if value[from] == NEWLINE then from else LastNewline(value, from - 1)
  }

  /** Where the next piece of a text longer than `capacity` ends. */
  function PieceEnd(value: Text, capacity: nat): (end: nat)
    requires 0 < capacity < |value|
    ensures 0 < end <= capacity
    ensures 1 < capacity ==> !CutsPair(value, end)
  {
    var end := CodePointBoundary(value, capacity);
    var newline := LastNewline(value, end);
    if 0 < newline then newline else end
  }

  function Split(value: Text, capacity: nat): seq<Text>
    requires 0 < capacity
    decreases |value|
  {
    if capacity < |value| then
      [value[..PieceEnd(value, capacity)]] + Split(value[PieceEnd(value, capacity)..], capacity)
    else if value != [] then [value] else []
  }

  /** `splitTransportText`. */
  method SplitTransportText(value: Text, capacity: nat) returns (parts: seq<Text>)
    requires 0 < capacity
    ensures parts == Split(value, capacity)
  {
    parts := [];
    var remaining := value;
    while capacity < |remaining|
      invariant parts + Split(remaining, capacity) == Split(value, capacity)
      decreases |remaining|
    {
      var end := CodePointBoundary(remaining, capacity);
      var newline := LastNewline(remaining, end);
      if 0 < newline { end := newline; }
      parts := parts + [remaining[..end]];
      remaining := remaining[end..];
    }
    if remaining != [] { parts := parts + [remaining]; }
  }

  function Concat(parts: seq<Text>): Text {
    if parts == [] then [] else parts[0] + Concat(parts[1..])
  }

  lemma SplitUnfolds(value: Text, capacity: nat, end: nat)
    requires 0 < capacity < |value| && end == PieceEnd(value, capacity)
    ensures Split(value, capacity) == [value[..end]] + Split(value[end..], capacity)
    ensures Split(value, capacity)[0] == value[..end] && Split(value, capacity)[1..] == Split(value[end..], capacity)
    ensures value[..end] + value[end..] == value
  {
    SplitTail(value[..end], Split(value[end..], capacity));
    Halves(value, end);
  }

  lemma Halves(value: Text, end: nat)
    requires end <= |value|
    ensures value[..end] + value[end..] == value
  {
  }

  lemma SplitTail(first: Text, rest: seq<Text>)
    ensures ([first] + rest)[0] == first && ([first] + rest)[1..] == rest
  {
  }

  lemma {:induction false} SplitConcats(value: Text, capacity: nat)
    requires 0 < capacity
    ensures Concat(Split(value, capacity)) == value
    decreases |value|
  {
    if capacity < |value| {
      SplitUnfolds(value, capacity, PieceEnd(value, capacity));
      SplitConcats(value[PieceEnd(value, capacity)..], capacity);
    } else if value != [] {
      assert Split(value, capacity)[1..] == [];
    }
  }

  lemma {:induction false} SplitSizes(value: Text, capacity: nat)
    requires 0 < capacity
    ensures forall piece <- Split(value, capacity) :: 0 < |piece| <= capacity
    ensures Split(value, capacity) == [] <==> value == []
    decreases |value|
  {
    if capacity < |value| {
      SplitUnfolds(value, capacity, PieceEnd(value, capacity));
      SplitSizes(value[PieceEnd(value, capacity)..], capacity);
    }
  }

  /** The pieces, put together again, are the text; each has between one and `capacity` units. */
  lemma SplitIsLossless(value: Text, capacity: nat)
    requires 0 < capacity
    ensures Concat(Split(value, capacity)) == value
    ensures forall piece <- Split(value, capacity) :: 0 < |piece| <= capacity
    ensures Split(value, capacity) == [] <==> value == []
  {
    SplitConcats(value, capacity);
    SplitSizes(value, capacity);
  }

  /** Where the k-th piece starts. */
  function CutAt(value: Text, capacity: nat, k: nat): nat
    requires 0 < capacity && k <= |Split(value, capacity)|
  {
    |Concat(Split(value, capacity)[..k])|
  }

  lemma CutMoves(value: Text, capacity: nat, k: nat, end: nat)
    requires 0 < capacity < |value| && end == PieceEnd(value, capacity) && 0 < k <= |Split(value, capacity)|
    ensures k - 1 <= |Split(value[end..], capacity)|
    ensures CutAt(value, capacity, k) == end + CutAt(value[end..], capacity, k - 1)
  {
    SplitUnfolds(value, capacity, end);
    var rest := Split(value[end..], capacity);
    assert Split(value, capacity)[..k] == [value[..end]] + rest[..k - 1];
    assert ([value[..end]] + rest[..k - 1])[1..] == rest[..k - 1];
  }

  lemma CutWithin(value: Text, capacity: nat, k: nat)
    requires 0 < capacity && 0 < k <= |Split(value, capacity)|
    ensures 0 < CutAt(value, capacity, k) <= |value|
  {
    SplitIsLossless(value, capacity);
    PrefixNonempty(Split(value, capacity), k);
    PrefixWithin(Split(value, capacity), k);
  }

  /** With room for two units, no piece ends between the halves of a pair that its text holds. */
  lemma {:induction false} SplitKeepsPairs(value: Text, capacity: nat, k: nat)
    requires 1 < capacity && k <= |Split(value, capacity)|
    ensures !CutsPair(value, CutAt(value, capacity, k))
    decreases |value|
  {
    if capacity < |value| && k != 0 {
      var end := PieceEnd(value, capacity);
      CutMoves(value, capacity, k, end);
      if k != 1 {
        SplitKeepsPairs(value[end..], capacity, k - 1);
        CutWithin(value[end..], capacity, k - 1);
      }
    } else if k != 0 {
      SplitConcats(value, capacity);
      assert Split(value, capacity)[..k] == Split(value, capacity);
    }
  }

  lemma {:induction false} PrefixNonempty(parts: seq<Text>, k: nat)
    requires 0 < k <= |parts| && forall piece <- parts :: 0 < |piece|
    ensures 0 < |Concat(parts[..k])|
  {
    assert parts[..k][0] == parts[0] && parts[0] in parts;
  }

  lemma {:induction false} PrefixWithin(parts: seq<Text>, k: nat)
    requires k <= |parts|
    ensures |Concat(parts[..k])| <= |Concat(parts)|
    decreases k
  {
    if k != 0 {
      assert parts[..k][1..] == parts[1..][..k - 1];
      PrefixWithin(parts[1..], k - 1);
    }
  }

  /** Two neighbouring pieces of one text never fit into one message, separator included. */
  lemma {:induction false} NeighboursDoNotFit(value: Text, capacity: nat, k: nat)
    requires 0 < capacity && k + 1 < |Split(value, capacity)|
    ensures capacity < |Split(value, capacity)[k]| + 2 + |Split(value, capacity)[k + 1]|
    decreases |value|
  {
    var end := PieceEnd(value, capacity);
    var rest := value[end..];
    assert Split(value, capacity) == [value[..end]] + Split(rest, capacity);
    if k != 0 {
      NeighboursDoNotFit(rest, capacity, k - 1);
    } else if capacity < |rest| {
      SecondPiece(value, capacity);
    }
  }

  /** A first piece that was cut at a line break leaves no other break in reach, so the next piece is long. */
  lemma SecondPiece(value: Text, capacity: nat)
    requires 0 < capacity < |value| && capacity < |value[PieceEnd(value, capacity)..]|
    ensures capacity < PieceEnd(value, capacity) + 2 + PieceEnd(value[PieceEnd(value, capacity)..], capacity)
  {
    var bound := CodePointBoundary(value, capacity);
    var end := PieceEnd(value, capacity);
    var rest := value[end..];
    var newline := LastNewline(rest, CodePointBoundary(rest, capacity));
    if 0 < newline && end < bound {
      assert rest[newline] == value[end + newline];
      assert LastNewline(value, bound) == end;
    }
  }

  // --------------------------------------------------------------------- packing

  /** A piece of the segment with this index. */
  datatype Piece = Piece(segment: nat, text: Text)

  const SEPARATOR: Text := [NEWLINE, NEWLINE]

  /** "Decision", what an empty document is sent as. */
  const PLACEHOLDER: Text := [68, 101, 99, 105, 115, 105, 111, 110]

  /** The text of one message: its pieces with a blank line between any two. */
  function Joined(pieces: seq<Piece>): Text {
    if pieces == [] then []
    else if |pieces| == 1 then pieces[0].text
    else Joined(pieces[..|pieces| - 1]) + SEPARATOR + pieces[|pieces| - 1].text
  }

  function Message(pieces: seq<Piece>): seq<seq<Piece>> {
    if pieces == [] then [] else [pieces]
  }

  /** The messages that the remaining pieces make when `current` is already waiting to be sent. */
  function Packed(pieces: seq<Piece>, capacity: nat, current: seq<Piece>): seq<seq<Piece>>
    decreases |pieces|
  {
    if pieces == [] then Message(current)
    else if |Joined(current + [pieces[0]])| <= capacity then Packed(pieces[1..], capacity, current + [pieces[0]])
    else Message(current) + Packed(pieces[1..], capacity, [pieces[0]])
  }

  function PiecesOf(segment: nat, texts: seq<Text>): seq<Piece> {
    seq(|texts|, i requires 0 <= i < |texts| => Piece(segment, texts[i]))
  }

  /** The pieces of the segments from `first` on. */
  function AllPieces(segments: seq<Text>, capacity: nat, first: nat): seq<Piece>
    requires 0 < capacity && first <= |segments|
    decreases |segments| - first
  {
    if first == |segments| then []
    else PiecesOf(first, Split(segments[first], capacity)) + AllPieces(segments, capacity, first + 1)
  }

  function Layout(segments: seq<Text>, capacity: nat): seq<seq<Piece>>
    requires 0 < capacity
  {
    Packed(AllPieces(segments, capacity, 0), capacity, [])
  }

  function Texts(layout: seq<seq<Piece>>): seq<Text> {
    seq(|layout|, i requires 0 <= i < |layout| => Joined(layout[i]))
  }

  /** The texts of `packDecisionSegments`. */
  function Bodies(segments: seq<Text>, capacity: nat): seq<Text>
    requires 0 < capacity
  {
    if Layout(segments, capacity) == [] then [PLACEHOLDER] else Texts(Layout(segments, capacity))
  }

  lemma TextsConcat(a: seq<seq<Piece>>, b: seq<seq<Piece>>)
    ensures Texts(a + b) == Texts(a) + Texts(b)
  {
  }

  lemma JoinedMore(current: seq<Piece>, piece: Piece)
    ensures Joined(current + [piece]) == if current == [] then piece.text else Joined(current) + SEPARATOR + piece.text
  {
    assert (current + [piece])[..|current|] == current;
  }

  /** The next piece joins what is waiting, or what is waiting goes out before it. */
  lemma PackStep(pieces: seq<Piece>, i: nat, later: seq<Piece>, capacity: nat, waiting: seq<Piece>)
    requires i < |pieces|
    ensures Texts(Packed(pieces[i..] + later, capacity, waiting))
         == if |Joined(waiting + [pieces[i]])| <= capacity then
              Texts(Packed(pieces[i + 1..] + later, capacity, waiting + [pieces[i]]))
            else
              (if waiting == [] then [] else [Joined(waiting)])
              + Texts(Packed(pieces[i + 1..] + later, capacity, [pieces[i]]))
  {
    assert (pieces[i..] + later)[0] == pieces[i] && (pieces[i..] + later)[1..] == pieces[i + 1..] + later;
    TextsConcat(Message(waiting), Packed(pieces[i + 1..] + later, capacity, [pieces[i]]));
  }

  lemma Regrouped(a: seq<Text>, b: seq<Text>, c: seq<Text>)
    ensures (a + b) + c == a + (b + c)
    ensures b == [] ==> a + b == a
  {
  }

  /** The message under construction: its text, and for the proof its pieces. */
  ghost predicate Building(current: Text, waiting: seq<Piece>) {
    current == Joined(waiting) && (current == [] <==> waiting == [])
  }

  /** One piece: it joins the message under construction, or that message goes out first. */
  method PackPiece(piece: Text, capacity: nat, parts: seq<Text>, current: Text, ghost p: Piece,
                   ghost waiting: seq<Piece>)
    returns (parts': seq<Text>, current': Text, ghost waiting': seq<Piece>)
    requires p.text == piece != [] && Building(current, waiting)
    ensures Building(current', waiting')
    ensures if |Joined(waiting + [p])| <= capacity then parts' == parts && waiting' == waiting + [p]
            else parts' == parts + (if waiting == [] then [] else [current]) && waiting' == [p]
  {
    JoinedMore(waiting, p);
    var candidate := if current == [] then piece else current + SEPARATOR + piece;
    if |candidate| <= capacity { return parts, candidate, waiting + [p]; }
    parts' := if current == [] then parts else parts + [current];
    return parts', piece, [p];
  }

  /** One segment's pieces onto what is waiting; a message that is full goes out first. */
  method PackPieces(ghost all: seq<Text>, ghost waiting: seq<Piece>, ghost pieces: seq<Piece>, ghost later: seq<Piece>,
                    texts: seq<Text>, capacity: nat, parts: seq<Text>, current: Text)
    returns (parts': seq<Text>, current': Text, ghost waiting': seq<Piece>)
    requires |pieces| == |texts| && forall i :: 0 <= i < |pieces| ==> pieces[i].text == texts[i] != []
    requires Building(current, waiting)
    requires parts + Texts(Packed(pieces + later, capacity, waiting)) == all
    ensures Building(current', waiting')
    ensures parts' + Texts(Packed(later, capacity, waiting')) == all
  {
    parts', current', waiting' := parts, current, waiting;
    for i := 0 to |texts|
      invariant Building(current', waiting')
      invariant parts' + Texts(Packed(pieces[i..] + later, capacity, waiting')) == all
    {
      PackStep(pieces, i, later, capacity, waiting');
      Regrouped(parts', if waiting' == [] then [] else [current'],
                Texts(Packed(pieces[i + 1..] + later, capacity, [pieces[i]])));
      parts', current', waiting' := PackPiece(texts[i], capacity, parts', current', pieces[i], waiting');
    }
    assert pieces[|texts|..] + later == later;
  }

  /** `packDecisionSegments`. */
  method PackDecisionSegments(segments: seq<Text>, capacity: nat) returns (parts: seq<Text>)
    requires 0 < capacity
    ensures parts == Bodies(segments, capacity)
  {
    parts := [];
    var current: Text := [];
    ghost var waiting: seq<Piece> := [];
    ghost var all := Texts(Layout(segments, capacity));
    for i := 0 to |segments|
      invariant Building(current, waiting)
      invariant parts + Texts(Packed(AllPieces(segments, capacity, i), capacity, waiting)) == all
    {
      var texts := SplitTransportText(segments[i], capacity);
      SplitSizes(segments[i], capacity);
      assert forall k :: 0 <= k < |texts| ==> texts[k] in texts;
      parts, current, waiting :=
        PackPieces(all, waiting, PiecesOf(i, texts), AllPieces(segments, capacity, i + 1), texts, capacity, parts,
                   current);
    }
    if current != [] { parts := parts + [current]; }
    assert parts == all;
    if parts == [] { parts := [PLACEHOLDER]; }
  }

  // ------------------------------------------------------------ what packing keeps

  function Flatten(layout: seq<seq<Piece>>): seq<Piece> {
    if layout == [] then [] else layout[0] + Flatten(layout[1..])
  }

  lemma {:induction false} PackedKeepsOrder(pieces: seq<Piece>, capacity: nat, current: seq<Piece>)
    ensures Flatten(Packed(pieces, capacity, current)) == current + pieces
    decreases |pieces|
  {
    if pieces != [] {
      assert pieces == [pieces[0]] + pieces[1..];
      if |Joined(current + [pieces[0]])| <= capacity {
        PackedKeepsOrder(pieces[1..], capacity, current + [pieces[0]]);
      } else {
        PackedKeepsOrder(pieces[1..], capacity, [pieces[0]]);
        var rest := Packed(pieces[1..], capacity, [pieces[0]]);
        assert Flatten(rest) == pieces;
        if current != [] { assert ([current] + rest)[1..] == rest; } else { assert Message(current) + rest == rest; }
      }
    } else if current != [] {
      assert Flatten([current]) == current;
    }
  }

  predicate Small(pieces: seq<Piece>, capacity: nat) {
    forall p <- pieces :: 0 < |p.text| <= capacity
  }

  /** A message that is not empty and not longer than the capacity. */
  predicate Fits(pieces: seq<Piece>, capacity: nat) { pieces != [] && 0 < |Joined(pieces)| <= capacity }

  lemma {:induction false} PackedFits(pieces: seq<Piece>, capacity: nat, current: seq<Piece>)
    requires Small(pieces, capacity) && (current == [] || Fits(current, capacity))
    ensures forall message <- Packed(pieces, capacity, current) :: Fits(message, capacity)
    decreases |pieces|
  {
    if pieces != [] {
      var p := pieces[0];
      assert p in pieces;
      JoinedMore(current, p);
      if |Joined(current + [p])| <= capacity {
        PackedFits(pieces[1..], capacity, current + [p]);
      } else {
        PackedFits(pieces[1..], capacity, [p]);
      }
    }
  }

  /** Each segment appears at most once in a message, and in document order. */
  predicate Spread(pieces: seq<Piece>) {
    forall i, j :: 0 <= i < j < |pieces| ==> pieces[i].segment < pieces[j].segment
  }

  predicate Neighbours(a: Piece, b: Piece, capacity: nat) {
    a.segment <= b.segment && (a.segment == b.segment ==> capacity < |a.text| + 2 + |b.text|)
  }

  predicate Ordered(pieces: seq<Piece>, capacity: nat) {
    forall i :: 0 <= i < |pieces| - 1 ==> Neighbours(pieces[i], pieces[i + 1], capacity)
  }

  lemma {:induction false} PackedSpreads(pieces: seq<Piece>, capacity: nat, current: seq<Piece>)
    requires Ordered(current + pieces, capacity) && Spread(current)
    ensures forall message <- Packed(pieces, capacity, current) :: Spread(message)
    decreases |pieces|
  {
    if pieces != [] {
      var p := pieces[0];
      assert (current + [p]) + pieces[1..] == current + pieces;
      if |Joined(current + [p])| <= capacity {
        JoinedMore(current, p);
        if current != [] {
          LastWithin(current);
          assert Neighbours((current + pieces)[|current| - 1], (current + pieces)[|current|], capacity);
        }
        PackedSpreads(pieces[1..], capacity, current + [p]);
      } else {
        OrderedTail(current, pieces, capacity);
        assert [p] + pieces[1..] == pieces;
        PackedSpreads(pieces[1..], capacity, [p]);
      }
    }
  }

  lemma LastWithin(pieces: seq<Piece>)
    requires pieces != []
    ensures |pieces[|pieces| - 1].text| <= |Joined(pieces)|
  {
  }

  lemma OrderedTail(a: seq<Piece>, b: seq<Piece>, capacity: nat)
    requires Ordered(a + b, capacity)
    ensures Ordered(b, capacity)
  {
    forall i | 0 <= i < |b| - 1 ensures Neighbours(b[i], b[i + 1], capacity) {
      assert Neighbours((a + b)[|a| + i], (a + b)[|a| + i + 1], capacity);
    }
  }

  lemma {:induction false} AllPiecesOk(segments: seq<Text>, capacity: nat, first: nat)
    requires 0 < capacity && first <= |segments|
    ensures Small(AllPieces(segments, capacity, first), capacity)
    ensures Ordered(AllPieces(segments, capacity, first), capacity)
    ensures forall p <- AllPieces(segments, capacity, first) :: first <= p.segment
    decreases |segments| - first
  {
    if first < |segments| {
      var mine := PiecesOf(first, Split(segments[first], capacity));
      var rest := AllPieces(segments, capacity, first + 1);
      SplitIsLossless(segments[first], capacity);
      AllPiecesOk(segments, capacity, first + 1);
      forall p <- mine
        ensures 0 < |p.text| <= capacity && p.segment == first
      {
        assert p.text in Split(segments[first], capacity);
      }
      forall i | 0 <= i < |mine + rest| - 1 ensures Neighbours((mine + rest)[i], (mine + rest)[i + 1], capacity) {
        if i + 1 < |mine| {
          NeighboursDoNotFit(segments[first], capacity, i);
        } else if i + 1 == |mine| {
          assert rest[0] in rest;
        } else {
          assert Neighbours(rest[i - |mine|], rest[i - |mine| + 1], capacity);
        }
      }
    }
  }

  function TextOf(pieces: seq<Piece>): Text {
    if pieces == [] then [] else pieces[0].text + TextOf(pieces[1..])
  }

  lemma {:induction false} TextOfConcat(a: seq<Piece>, b: seq<Piece>)
    ensures TextOf(a + b) == TextOf(a) + TextOf(b)
    decreases |a|
  {
    if a == [] {
      assert a + b == b;
    } else {
      assert (a + b)[1..] == a[1..] + b;
      TextOfConcat(a[1..], b);
    }
  }

  lemma {:induction false} TextOfPieces(segment: nat, texts: seq<Text>)
    ensures TextOf(PiecesOf(segment, texts)) == Concat(texts)
    decreases |texts|
  {
    if texts != [] {
      assert PiecesOf(segment, texts)[1..] == PiecesOf(segment, texts[1..]);
      TextOfPieces(segment, texts[1..]);
    }
  }

  lemma {:induction false} AllPiecesText(segments: seq<Text>, capacity: nat, first: nat)
    requires 0 < capacity && first <= |segments|
    ensures TextOf(AllPieces(segments, capacity, first)) == Concat(segments[first..])
    decreases |segments| - first
  {
    if first < |segments| {
      AllPiecesText(segments, capacity, first + 1);
      TextOfPieces(first, Split(segments[first], capacity));
      SplitIsLossless(segments[first], capacity);
      TextOfConcat(PiecesOf(first, Split(segments[first], capacity)), AllPieces(segments, capacity, first + 1));
      assert segments[first..][1..] == segments[first + 1..];
    }
  }

  /**
   The messages, without the blank lines put between pieces, are the document. No two
   pieces of one segment share a message, so no blank line is put inside a segment,
   and every message fits.
   */
  lemma PackingIsLossless(segments: seq<Text>, capacity: nat)
    requires 0 < capacity
    ensures TextOf(Flatten(Layout(segments, capacity))) == Concat(segments)
    ensures forall message <- Layout(segments, capacity) :: Fits(message, capacity) && Spread(message)
  {
    var pieces := AllPieces(segments, capacity, 0);
    AllPiecesOk(segments, capacity, 0);
    AllPiecesText(segments, capacity, 0);
    PackedKeepsOrder(pieces, capacity, []);
    PackedFits(pieces, capacity, []);
    assert [] + pieces == pieces;
    PackedSpreads(pieces, capacity, []);
    assert segments[0..] == segments;
  }

  predicate Blank(segments: seq<Text>) { forall segment <- segments :: segment == [] }

  lemma {:induction false} NoPiecesExactly(segments: seq<Text>, capacity: nat, first: nat)
    requires 0 < capacity && first <= |segments|
    ensures AllPieces(segments, capacity, first) == [] <==> forall i :: first <= i < |segments| ==> segments[i] == []
    decreases |segments| - first
  {
    if first < |segments| {
      SplitIsLossless(segments[first], capacity);
      assert |PiecesOf(first, Split(segments[first], capacity))| == |Split(segments[first], capacity)|;
      NoPiecesExactly(segments, capacity, first + 1);
    }
  }

  lemma {:induction false} PackedEmpty(pieces: seq<Piece>, capacity: nat, current: seq<Piece>)
    ensures Packed(pieces, capacity, current) == [] <==> pieces == [] && current == []
    decreases |pieces|
  {
    if pieces != [] {
      PackedEmpty(pieces[1..], capacity, current + [pieces[0]]);
      PackedEmpty(pieces[1..], capacity, [pieces[0]]);
    }
  }

  lemma NoLayoutExactly(segments: seq<Text>, capacity: nat)
    requires 0 < capacity
    ensures Layout(segments, capacity) == [] <==> Blank(segments)
  {
    NoPiecesExactly(segments, capacity, 0);
    PackedEmpty(AllPieces(segments, capacity, 0), capacity, []);
    assert forall i :: 0 <= i < |segments| ==> segments[i] in segments;
  }

  /** The placeholder of a blank document ignores the capacity; every other document keeps to it. */
  lemma BodiesFitExactly(segments: seq<Text>, capacity: nat)
    requires 0 < capacity
    ensures (forall body <- Bodies(segments, capacity) :: |body| <= capacity)
       <==> !Blank(segments) || |PLACEHOLDER| <= capacity
  {
    NoLayoutExactly(segments, capacity);
    PackingIsLossless(segments, capacity);
    var layout := Layout(segments, capacity);
    if Blank(segments) {
      assert Bodies(segments, capacity)[0] == PLACEHOLDER;
    } else {
      forall body <- Bodies(segments, capacity) ensures |body| <= capacity {
        var i :| 0 <= i < |layout| && Texts(layout)[i] == body;
        assert layout[i] in layout;
      }
    }
  }

  /** A blank document with room for seven units: the placeholder has eight. */
  lemma PlaceholderCanOverflow()
    ensures Bodies([[]], 7) == [PLACEHOLDER] && 7 < |PLACEHOLDER|
  {
    assert Blank([[]]);
    NoLayoutExactly([[]], 7);
  }

  // ------------------------------------------------------------------- rendering

  function Digits(n: nat): Text
    decreases n
  {
    if n < 10 then [48 + n as CodeUnit] else Digits(n / 10) + [48 + (n % 10) as CodeUnit]
  }

  const PART: Text := [80, 97, 114, 116, 32]
  const SLASH: CodeUnit := 47
  const DECISION: Text := [NEWLINE, 68, 101, 99, 105, 115, 105, 111, 110, 32]

  /** "Part 2/5", a line break, "Decision" and the fingerprint, and a blank line. */
  function PartHeader(part: nat, total: nat, fingerprint: Text): Text {
    PART + Digits(part) + [SLASH] + Digits(total) + DECISION + fingerprint + SEPARATOR
  }

  datatype Rendered = Parts(texts: seq<Text>) | LimitTooSmall | TooManyParts | PartTooLong

  function Capacity(fingerprint: Text, textLimit: int): int {
    textLimit - |PartHeader(MAX_TRANSPORT_PARTS, MAX_TRANSPORT_PARTS, fingerprint)|
  }

  function Titled(bodies: seq<Text>, fingerprint: Text, i: nat): Text
    requires i < |bodies|
  {
    PartHeader(i + 1, |bodies|, fingerprint) + bodies[i]
  }

  /** `renderTelegramParts` of a document's segments. */
  method RenderTelegramParts(segments: seq<Text>, fingerprint: Text, textLimit: int) returns (r: Rendered)
    ensures r.LimitTooSmall? <==> Capacity(fingerprint, textLimit) < 1
    ensures r.TooManyParts? <==>
      0 < Capacity(fingerprint, textLimit) && MAX_TRANSPORT_PARTS < |Bodies(segments, Capacity(fingerprint, textLimit))|
    ensures r.Parts? ==>
      && 0 < Capacity(fingerprint, textLimit)
      && var bodies := Bodies(segments, Capacity(fingerprint, textLimit));
        && |r.texts| == |bodies|
        && forall i :: 0 <= i < |bodies| ==>
             && |r.texts[i]| <= textLimit && r.texts[i] == Titled(bodies, fingerprint, i)
             && r.texts[i] == PART + Digits(i + 1) + [SLASH] + Digits(|bodies|) + DECISION + fingerprint + SEPARATOR
                              + bodies[i]
    ensures r.PartTooLong? <==>
      && 0 < Capacity(fingerprint, textLimit) < |PLACEHOLDER| - 2 && Blank(segments)
      && |Bodies(segments, Capacity(fingerprint, textLimit))| <= MAX_TRANSPORT_PARTS
  {
    var capacity := Capacity(fingerprint, textLimit);
    if capacity < 1 { return LimitTooSmall; }
    var bodies := PackDecisionSegments(segments, capacity);
    if MAX_TRANSPORT_PARTS < |bodies| { return TooManyParts; }
    LengthErrorExactly(segments, fingerprint, textLimit);
    var texts: seq<Text> := [];
    for i := 0 to |bodies|
      invariant |texts| == i
      invariant forall k :: 0 <= k < i ==> texts[k] == Titled(bodies, fingerprint, k) && |texts[k]| <= textLimit
    {
      var text := PartHeader(i + 1, |bodies|, fingerprint) + bodies[i];
      assert text == Titled(bodies, fingerprint, i);
      if textLimit < |text| { return PartTooLong; }
      texts := texts + [text];
    }
    return Parts(texts);
  }

  /** The number that decimal digits spell. */
  function Spelled(digits: Text): int {
    if digits == [] then 0 else 10 * Spelled(digits[..|digits| - 1]) + (digits[|digits| - 1] as int - 48)
  }

  /** The numbers in a header read back as what they were. */
  lemma {:induction false} DigitsSpell(n: nat)
    ensures Spelled(Digits(n)) == n && forall u <- Digits(n) :: 48 <= u <= 57
    decreases n
  {
    var last := [48 + (n % 10) as CodeUnit];
    if n < 10 {
      assert last[..0] == [];
    } else {
      DigitsSpell(n / 10);
      assert (Digits(n / 10) + last)[..|Digits(n / 10)|] == Digits(n / 10);
    }
  }

  /** No header of at most twenty parts is longer than the one that was reserved. */
  lemma HeaderFits(part: nat, total: nat, fingerprint: Text)
    requires part <= total <= MAX_TRANSPORT_PARTS
    ensures |PartHeader(part, total, fingerprint)|
         <= |PartHeader(MAX_TRANSPORT_PARTS, MAX_TRANSPORT_PARTS, fingerprint)|
    ensures total == 1 && part == 1 ==>
      |PartHeader(part, total, fingerprint)| + 2 == |PartHeader(MAX_TRANSPORT_PARTS, MAX_TRANSPORT_PARTS, fingerprint)|
  {
    assert |Digits(MAX_TRANSPORT_PARTS)| == 2;
    TwoDigits(part);
    TwoDigits(total);
  }

  lemma TwoDigits(n: nat)
    requires n <= MAX_TRANSPORT_PARTS
    ensures |Digits(n)| == if n < 10 then 1 else 2
  {
  }

  /** The length error can only be met by a blank document under a tiny limit. */
  lemma LengthErrorExactly(segments: seq<Text>, fingerprint: Text, textLimit: int)
    requires 0 < Capacity(fingerprint, textLimit)
    requires |Bodies(segments, Capacity(fingerprint, textLimit))| <= MAX_TRANSPORT_PARTS
    ensures var bodies := Bodies(segments, Capacity(fingerprint, textLimit));
      (exists i :: 0 <= i < |bodies| && textLimit < |Titled(bodies, fingerprint, i)|)
      <==> Blank(segments) && Capacity(fingerprint, textLimit) < |PLACEHOLDER| - 2
  {
    var capacity := Capacity(fingerprint, textLimit);
    var bodies := Bodies(segments, capacity);
    NoLayoutExactly(segments, capacity);
    BodiesFitExactly(segments, capacity);
    if Blank(segments) {
      HeaderFits(1, 1, fingerprint);
      assert bodies == [PLACEHOLDER];
      assert |Titled(bodies, fingerprint, 0)| == |PartHeader(1, 1, fingerprint)| + |PLACEHOLDER|;
    } else {
      forall i | 0 <= i < |bodies| ensures |Titled(bodies, fingerprint, i)| <= textLimit {
        assert bodies[i] in bodies;
        HeaderFits(i + 1, |bodies|, fingerprint);
      }
    }
  }

  // ------------------------------------------------------------------- documents

  const RETURN: CodeUnit := 13
  const REPLACEMENT: CodeUnit := 0xFFFD

  /** Every kind of line break becomes a line feed. */
  function LineFeeds(value: Text): (r: Text)
    ensures value != [] ==> r != []
    ensures RETURN !in r
  {
    if value == [] then []
    else if value[0] != RETURN then [value[0]] + LineFeeds(value[1..])
    else if 1 < |value| && value[1] == NEWLINE then [NEWLINE] + LineFeeds(value[2..])
    else [NEWLINE] + LineFeeds(value[1..])
  }

  function SafeUnit(u: CodeUnit): CodeUnit {
    if u <= 8 || 11 <= u <= 31 || u == 127 then REPLACEMENT else u
  }

  /** `operatorSafeText`. */
  function OperatorSafe(value: Text): (r: Text)
    ensures value != [] ==> r != []
  {
    var lines := LineFeeds(value);
    seq(|lines|, i requires 0 <= i < |lines| => SafeUnit(lines[i]))
  }

  /** Line breaks are line feeds, and no other control character is left but the tab. */
  lemma SafeTextIsSafe(value: Text)
    ensures forall u <- OperatorSafe(value) :: u == 9 || u == NEWLINE || (32 <= u && u != 127)
  {
    forall i | 0 <= i < |OperatorSafe(value)| ensures
      var u := OperatorSafe(value)[i]; u == 9 || u == NEWLINE || (32 <= u && u != 127)
    {
      assert LineFeeds(value)[i] in LineFeeds(value);
    }
  }

  lemma {:induction false} LineFeedsKeep(value: Text)
    requires RETURN !in value
    ensures LineFeeds(value) == value
    decreases |value|
  {
    if value != [] {
      LineFeedsKeep(value[1..]);
      assert value == [value[0]] + value[1..];
    }
  }

  /** And a text that is safe already is shown as it is, so making it safe twice changes nothing. */
  lemma SafeTextStays(value: Text)
    requires forall u <- value :: u == 9 || u == NEWLINE || (32 <= u && u != 127)
    ensures OperatorSafe(value) == value
  {
    LineFeedsKeep(value);
    forall i | 0 <= i < |value| ensures OperatorSafe(value)[i] == value[i] { assert value[i] in value; }
  }

  /** "Choices" and a line break. */
  const CHOICES: Text := [67, 104, 111, 105, 99, 101, 115, NEWLINE]

  /** The segments of a decision document: title, summary, blocks and default, and last the choices. */
  function DocumentSegments(before: seq<Text>, choices: Text): seq<Text> {
    seq(|before|, i requires 0 <= i < |before| => OperatorSafe(before[i])) + [OperatorSafe(CHOICES + choices)]
  }

  /** No document is blank, so rendering one never meets the length error. */
  lemma DocumentsNeverTooLong(before: seq<Text>, choices: Text, fingerprint: Text, textLimit: int)
    requires 0 < Capacity(fingerprint, textLimit)
    requires |Bodies(DocumentSegments(before, choices), Capacity(fingerprint, textLimit))| <= MAX_TRANSPORT_PARTS
    ensures var bodies := Bodies(DocumentSegments(before, choices), Capacity(fingerprint, textLimit));
      forall i :: 0 <= i < |bodies| ==> |Titled(bodies, fingerprint, i)| <= textLimit
  {
    var segments := DocumentSegments(before, choices);
    assert segments[|before|] == OperatorSafe(CHOICES + choices) && segments[|before|] in segments;
    LengthErrorExactly(segments, fingerprint, textLimit);
  }
}
