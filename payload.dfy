/** Decoding of a scanned lottery-ticket QR text (the body of `handleScan`,
    src/app/page.tsx:24-52).

    The scanned text is a URL whose `v` query value carries the played games:
    a header, then per game one ASCII letter followed by six two-digit fields.
    URL parsing itself (`new URL`, `URLSearchParams`) is not part of this
    model: its outcome is an input, a `UrlQuery`. */
module Payload {
  import opened JsBuiltins

  /** What `new URLSearchParams(new URL(data).search).get('v')` produced. */
  datatype UrlQuery =
    | Unparsable        // `new URL(data)` threw
    | NoV               // no `v` parameter (`get` gave null)
    | V(value: string)  // the decoded value of `v`

  /** What `handleScan` did with one scanned text. */
  datatype ScanOutcome =
    | Skipped                         // returned early, nothing changed
    | Rejected                        // an exception was caught and logged, nothing changed
    | Decoded(sets: seq<seq<int>>)    // the played sets were stored and passed on

  /** Field `k` (0 <= k < 6) of a game: `parseInt(piece.substring(2k, 2k + 2), 10)`. */
  function Field(piece: string, k: nat): Option<int> {
    ParseInt(Slice(piece, 2 * k, 2 * k + 2))
  }

  /** The first `n` fields of a game, or `None` as soon as one of them is `NaN`. */
  function FieldsUpTo(piece: string, n: nat): (r: Option<seq<int>>)
    ensures r.Some? <==> forall k :: 0 <= k < n ==> Field(piece, k).Some?
    ensures r.Some? ==> |r.value| == n && forall k :: 0 <= k < n ==> r.value[k] == Field(piece, k).value
  {
    if n == 0 then Some([])
    else match FieldsUpTo(piece, n - 1)
      case None => None
      case Some(xs) =>
        match Field(piece, n - 1)
        case None => None
        case Some(x) => Some(xs + [x])
  }

  /** One game decoded: six numbers, or `None` when a field is not a number. */
  function PlayedSet(piece: string): Option<seq<int>> {
    FieldsUpTo(piece, 6)
  }

  /** The callback of `parts.slice(1).map(...)`: the inner loop reads the six
      fields two code units at a time and gives up at the first `NaN`. */
  method DecodeSet(piece: string) returns (r: Option<seq<int>>)
    ensures r == PlayedSet(piece)
  {
    var numbers: seq<int> := [];
    var i := 0;
    ghost var k := 0;
    while i < 12
      invariant 0 <= k <= 6 && i == 2 * k
      invariant FieldsUpTo(piece, k) == Some(numbers)
    {
      var number := ParseInt(Slice(piece, i, i + 2));
      assert number == Field(piece, k);
      if number.None? {
        return None;
      }
      numbers := numbers + [number.value];
      i := i + 2;
      k := k + 1;
    }
    r := Some(numbers);
  }

  /** All games, or `None` if any one of them fails. */
  function PlayedSets(pieces: seq<string>): (r: Option<seq<seq<int>>>)
    ensures r.None? <==> exists i :: 0 <= i < |pieces| && PlayedSet(pieces[i]).None?
    ensures r.Some? ==> |r.value| == |pieces| && forall i :: 0 <= i < |pieces| ==> PlayedSet(pieces[i]) == Some(r.value[i])
  {
    if pieces == [] then Some([])
    else match PlayedSets(pieces[..|pieces| - 1])
      case None => None
      case Some(xs) =>
        match PlayedSet(pieces[|pieces| - 1])
        case None => None
        case Some(x) => Some(xs + [x])
  }

  /** The pieces of `v` that carry games: everything after the first letter,
      split at every later letter. */
  function GamePieces(v: string): seq<string> {
    SplitOnLetters(v)[1..]
  }

  predicate StartsWithHttp(data: string) {
    "http" <= data
  }

  /** What `handleScan` does with the scanned `data`. */
  function Scan(data: string, query: UrlQuery): ScanOutcome {
    if data == [] || !StartsWithHttp(data) then Skipped
    else match query
      case Unparsable => Rejected
      case NoV => Skipped
      case V(v) =>
        if v == [] then Skipped
        else match PlayedSets(GamePieces(v))
          case None => Rejected
          case Some(sets) => Decoded(sets)
  }

  method HandleScan(data: string, query: UrlQuery) returns (r: ScanOutcome)
    ensures r == Scan(data, query)
  {
    if data == [] || !StartsWithHttp(data) {
      return Skipped;
    }
    if query.Unparsable? {
      return Rejected;
    }
    if query.NoV? || query.value == [] {
      return Skipped;
    }
    var parts := SplitOnLetters(query.value);
    var sets: seq<seq<int>> := [];
    var p := 1;
    while p < |parts|
      invariant 1 <= p <= |parts|
      invariant PlayedSets(parts[1..p]) == Some(sets)
    {
      var numbers := DecodeSet(parts[p]);
      if numbers.None? {
        assert parts[1..][p - 1] == parts[p];
        return Rejected;
      }
      assert parts[1..p + 1][..p - 1] == parts[1..p];
      sets := sets + [numbers.value];
      p := p + 1;
    }
    assert parts[1..p] == parts[1..];
    r := Decoded(sets);
  }

  // ---------------------------------------------------------------------------
  // Properties of the decoder

  /** Text that is empty or not an `http...` string, or a URL without a
      non-empty `v`, is skipped; an unparsable URL is rejected. Either way
      nothing is stored. */
  lemma ScanSkipsOrRejects(data: string, query: UrlQuery)
    ensures !StartsWithHttp(data) ==> Scan(data, query) == Skipped
    ensures StartsWithHttp(data) && (query.NoV? || query == V([])) ==> Scan(data, query) == Skipped
    ensures StartsWithHttp(data) && query.Unparsable? ==> Scan(data, query) == Rejected
  {
  }

  /** A `v` without any ASCII letter holds no game. */
  lemma {:induction false} ScanNoLetter(data: string, v: string)
    requires StartsWithHttp(data) && v != []
    requires LetterFree(v)
    ensures Scan(data, V(v)) == Decoded([])
  {
    SplitLetterFree(v);
  }

  /** Otherwise every letter of `v` opens one game of exactly six numbers,
      and the scan is rejected exactly when some game has a field that is not
      a number. */
  lemma ScanGames(data: string, v: string)
    requires StartsWithHttp(data) && v != []
    ensures |GamePieces(v)| == CountLetters(v)
    ensures Scan(data, V(v)).Rejected? <==> exists i :: 0 <= i < |GamePieces(v)| && PlayedSet(GamePieces(v)[i]).None?
    ensures Scan(data, V(v)).Decoded? ==> |Scan(data, V(v)).sets| == CountLetters(v)
    ensures Scan(data, V(v)).Decoded? ==> forall i :: 0 <= i < |Scan(data, V(v)).sets| ==> |Scan(data, V(v)).sets[i]| == 6
  {
    SplitCount(v);
  }

  /** A game fails when one of its fields is `NaN`; in particular a piece of
      at most ten code units (so also the empty piece between two adjacent
      letters or after a final letter) is rejected, because its sixth field is
      the empty string. */
  lemma PlayedSetFails(piece: string)
    ensures PlayedSet(piece).None? <==> exists k :: 0 <= k < 6 && Field(piece, k).None?
    ensures |piece| <= 10 ==> PlayedSet(piece).None?
  {
    if |piece| <= 10 {
      assert Slice(piece, 10, 12) == [];
      assert Field(piece, 5).None?;
    }
  }

  /** A piece of eleven code units still decodes: its sixth field is a single
      digit. */
  lemma ElevenDigitPiece(piece: string)
    requires |piece| == 11 && forall k :: 0 <= k < 11 ==> IsDecimalDigit(piece[k])
    ensures PlayedSet(piece).Some?
    ensures PlayedSet(piece).value[5] == DigitValue(piece[10])
  {
    forall k | 0 <= k < 6 ensures Field(piece, k).Some? {
      var f := Slice(piece, 2 * k, 2 * k + 2);
      ParseIntStopsAtNonDigit(f, []);
      assert f + [] == f;
    }
    var f := Slice(piece, 10, 12);
    assert f == [piece[10]];
    assert f + [] == f;
    ParseIntStopsAtNonDigit(f, []);
    assert f[..0] == [];
  }

  /** The fields are not range-checked: a game may hold 0 or 99, and every
      field of a decoded game lies in -9..99. */
  lemma DecodedFieldRange(piece: string)
    ensures PlayedSet(piece).Some? ==> forall k :: 0 <= k < 6 ==> -9 <= PlayedSet(piece).value[k] <= 99
  {
    forall k | 0 <= k < 6 ensures Field(piece, k).Some? ==> -9 <= Field(piece, k).value <= 99 {
      ParseIntShortRange(Slice(piece, 2 * k, 2 * k + 2));
    }
  }

  // ---------------------------------------------------------------------------
  // The encoding the decoder reads, and the round trip

  /** Six fields written as twelve decimal digits. */
  function EncodeSet(game: seq<int>): (r: string)
    requires |game| == 6 && forall k :: 0 <= k < 6 ==> 0 <= game[k] <= 99
    ensures |r| == 12 && LetterFree(r)
  {
    TwoDigits(game[0]) + TwoDigits(game[1]) + TwoDigits(game[2]) +
    TwoDigits(game[3]) + TwoDigits(game[4]) + TwoDigits(game[5])
  }

  predicate EncodableSets(sets: seq<seq<int>>) {
    forall i :: 0 <= i < |sets| ==> |sets[i]| == 6 && forall k :: 0 <= k < 6 ==> 0 <= sets[i][k] <= 99
  }

  /** One ASCII letter in front of each game; the letters may differ. */
  predicate Separators(letters: string, sets: seq<seq<int>>) {
    |letters| == |sets| && forall i :: 0 <= i < |letters| ==> IsAsciiLetter(letters[i])
  }

  /** Each game as its own letter followed by its twelve digits. */
  function EncodeGames(letters: string, sets: seq<seq<int>>): string
    requires EncodableSets(sets) && |letters| == |sets|
  {
    if sets == [] then [] else [letters[0]] + EncodeSet(sets[0]) + EncodeGames(letters[1..], sets[1..])
  }

  /** A `v` value: a letter-free header, then the games. */
  function EncodePayload(header: string, letters: string, sets: seq<seq<int>>): string
    requires EncodableSets(sets) && |letters| == |sets|
  {
    header + EncodeGames(letters, sets)
  }

  lemma EncodeSetFields(game: seq<int>, k: nat)
    requires |game| == 6 && forall j :: 0 <= j < 6 ==> 0 <= game[j] <= 99
    requires k < 6
    ensures Slice(EncodeSet(game), 2 * k, 2 * k + 2) == TwoDigits(game[k])
  {
    var e := EncodeSet(game);
    forall j | 0 <= j < 2 ensures e[2 * k + j] == TwoDigits(game[k])[j] {
    }
  }

  lemma DecodeEncodedSet(game: seq<int>)
    requires |game| == 6 && forall k :: 0 <= k < 6 ==> 0 <= game[k] <= 99
    ensures PlayedSet(EncodeSet(game)) == Some(game)
  {
    var e := EncodeSet(game);
    forall k | 0 <= k < 6 ensures Field(e, k) == Some(game[k]) {
      EncodeSetFields(game, k);
      ParseIntTwoDigits(game[k]);
    }
    var r := FieldsUpTo(e, 6);
    assert r.Some?;
    assert r.value == game;
  }

  lemma {:induction false} SplitEncodedGames(a: string, letters: string, sets: seq<seq<int>>)
    requires LetterFree(a) && Separators(letters, sets) && EncodableSets(sets)
    ensures |SplitOnLetters(EncodePayload(a, letters, sets))| == |sets| + 1
    ensures SplitOnLetters(EncodePayload(a, letters, sets))[0] == a
    ensures forall i :: 0 <= i < |sets| ==> SplitOnLetters(EncodePayload(a, letters, sets))[i + 1] == EncodeSet(sets[i])
    decreases |sets|
  {
    if sets == [] {
      assert EncodePayload(a, letters, sets) == a;
      SplitLetterFree(a);
    } else {
      var e := EncodeSet(sets[0]);
      var tail := EncodeGames(letters[1..], sets[1..]);
      assert EncodePayload(a, letters, sets) == a + [letters[0]] + (e + tail);
      SplitAtLetter(a, letters[0], e + tail);
      assert EncodePayload(e, letters[1..], sets[1..]) == e + tail;
      assert Separators(letters[1..], sets[1..]) by {
        forall i | 0 <= i < |letters| - 1 ensures IsAsciiLetter(letters[1..][i]) {
          assert letters[1..][i] == letters[i + 1];
        }
      }
      SplitEncodedGames(e, letters[1..], sets[1..]);
      forall i | 1 <= i < |sets| ensures sets[1..][i - 1] == sets[i] {
      }
    }
  }

  lemma DecodeEncodedGames(header: string, letters: string, sets: seq<seq<int>>)
    requires LetterFree(header) && Separators(letters, sets) && EncodableSets(sets)
    ensures PlayedSets(GamePieces(EncodePayload(header, letters, sets))) == Some(sets)
  {
    var v := EncodePayload(header, letters, sets);
    SplitEncodedGames(header, letters, sets);
    var parts := SplitOnLetters(v);
    var pieces := GamePieces(v);
    assert pieces == parts[1..];
    forall i | 0 <= i < |sets| ensures PlayedSet(pieces[i]) == Some(sets[i]) {
      assert pieces[i] == parts[i + 1] == EncodeSet(sets[i]);
      DecodeEncodedSet(sets[i]);
    }
    var r := PlayedSets(pieces);
    assert r.Some?;
    assert r.value == sets;
  }

  /** Round trip: a payload written in the ticket format, each game behind a
      letter of its own, decodes back to the games it carries. */
  lemma DecodeEncoded(data: string, header: string, letters: string, sets: seq<seq<int>>)
    requires StartsWithHttp(data)
    requires LetterFree(header) && Separators(letters, sets) && EncodableSets(sets)
    requires header != [] || sets != []
    ensures Scan(data, V(EncodePayload(header, letters, sets))) == Decoded(sets)
  {
    DecodeEncodedGames(header, letters, sets);
    if header == [] {
      assert EncodePayload(header, letters, sets)[0] == letters[0];
    }
  }
}
