/** The canonical query string of the SMS signature (`sms_aliyun.py`): names in order,
    percent-encoded, joined.  Texts are the bytes of their UTF-8 form, whose order is the
    order of the texts. */
module CanonicalQuery {
  import opened Splitting

  type Byte = n: nat | n < 256
  type Text = seq<Byte>

  // ---- percent-encoding, sections 2.1 and 2.3 of RFC 3986 -------------------------------------

  predicate Unreserved(b: Byte) {
    || 'A' as nat <= b <= 'Z' as nat
    || 'a' as nat <= b <= 'z' as nat
    || '0' as nat <= b <= '9' as nat
    || b in {'-' as nat, '_' as nat, '.' as nat, '~' as nat}
  }

  function HexDigit(n: nat): (c: char)
    requires n < 16
    ensures c != '&' && c != '=' && HexValue(c) == n
  {
    if n < 10 then '0' + n as char else 'A' + (n - 10) as char
  }

  function HexValue(c: char): (n: nat)
    ensures n < 16
  {
    if '0' <= c <= '9' then (c - '0') as nat else if 'A' <= c <= 'F' then (c - 'A') as nat + 10 else 0
  }

  function PercentEncode(text: Text): string {
    if text == [] then ""
    else
      (if Unreserved(text[0]) then [text[0] as char] else ['%', HexDigit(text[0] / 16), HexDigit(text[0] % 16)])
      + PercentEncode(text[1..])
  }

  function PercentDecode(s: string): Text {
    if s == "" then []
    else if s[0] == '%' && |s| >= 3 then [HexValue(s[1]) * 16 + HexValue(s[2])] + PercentDecode(s[3..])
    else [if s[0] < 256 as char then s[0] as nat else 0] + PercentDecode(s[1..])
  }

  predicate Safe(c: char) {
    c == '%' || (c < 256 as char && Unreserved(c as nat))
  }

  /** Nothing but unreserved characters and escapes, and escapes only where needed. */
  lemma {:induction false} OnlySafeCharacters(text: Text)
    ensures forall c :: c in PercentEncode(text) ==> Safe(c)
    ensures |PercentEncode(text)| >= |text|
    ensures |PercentEncode(text)| == |text| <==> forall b :: b in text ==> Unreserved(b)
  {
    if text != [] {
      OnlySafeCharacters(text[1..]);
      assert text == [text[0]] + text[1..];
      assert forall n: nat :: n < 16 ==> Safe(HexDigit(n));
    }
  }

  const LARGE := "ABCDEFGHIJKLMNOPQRSTUVWXYZ"
  const SMALL := "abcdefghijklmnopqrstuvwxyz"
  const UNRESERVED := LARGE + SMALL + "0123456789" + "-_.~"
  const HEXDIGITS := "0123456789ABCDEF"

  lemma UnreservedExactly(b: Byte)
    ensures Unreserved(b) <==> b as char in UNRESERVED
  {
    LettersExactly(b as char);
    assert '0' <= b as char <= '9' <==> b as char in "0123456789";
  }

  lemma LargeAt(i: nat)
    requires i < 26
    ensures LARGE[i] == 'A' + i as char
  {}

  lemma SmallAt(i: nat)
    requires i < 26
    ensures SMALL[i] == 'a' + i as char
  {}

  lemma LettersExactly(c: char)
    ensures c in LARGE <==> 'A' <= c <= 'Z'
    ensures c in SMALL <==> 'a' <= c <= 'z'
  {
    if 'A' <= c <= 'Z' {
      LargeAt((c - 'A') as nat);
    }
    if 'a' <= c <= 'z' {
      SmallAt((c - 'a') as nat);
    }
    if i: nat :| i < 26 && LARGE[i] == c {
      LargeAt(i);
    }
    if i: nat :| i < 26 && SMALL[i] == c {
      SmallAt(i);
    }
  }

  lemma HexExactly(n: nat)
    requires n < 16
    ensures HexDigit(n) == HEXDIGITS[n] && HexValue(HEXDIGITS[n]) == n
  {}

  /** The 66 unreserved characters stand for themselves, any other byte is a percent sign and
      its two digits, high one first, in upper case. */
  lemma OneByte(b: Byte)
    ensures PercentEncode([b]) ==
      if b as char in UNRESERVED then [b as char] else ['%', HEXDIGITS[b / 16], HEXDIGITS[b % 16]]
  {
    UnreservedExactly(b);
    HexExactly(b / 16);
    HexExactly(b % 16);
    assert PercentEncode([]) == "";
  }

  /** A text is encoded byte by byte. */
  lemma {:induction false} EncodesBytewise(front: Text, back: Text)
    ensures PercentEncode(front + back) == PercentEncode(front) + PercentEncode(back)
  {
    if front == [] {
      assert front + back == back;
    } else {
      assert (front + back)[1..] == front[1..] + back;
      EncodesBytewise(front[1..], back);
    }
  }

  // ---- the order of the names -----------------------------------------------------------------

  predicate Below(a: Text, b: Text) {
    b != [] && (a == [] || a[0] < b[0] || (a[0] == b[0] && Below(a[1..], b[1..])))
  }

  /** The texts agree up to place k and the first has the smaller byte there. */
  predicate SmallerAt(a: Text, b: Text, k: nat) {
    k < |a| && k < |b| && a[..k] == b[..k] && a[k] < b[k]
  }

  lemma SameFirst(a: Text, b: Text, k: nat)
    requires a != [] && b != [] && a[0] == b[0]
    ensures SmallerAt(a, b, k + 1) <==> SmallerAt(a[1..], b[1..], k)
    ensures a <= b <==> a[1..] <= b[1..]
  {
    assert a == [a[0]] + a[1..] && b == [b[0]] + b[1..];
    if k < |a| - 1 && k < |b| - 1 {
      assert a[..k + 1] == [a[0]] + a[1..][..k] && b[..k + 1] == [b[0]] + b[1..][..k];
      assert a[1..][..k] == a[..k + 1][1..] && b[1..][..k] == b[..k + 1][1..];
    }
  }

  /** The first difference decides, and a proper prefix comes first. */
  lemma {:induction false} BelowExactly(a: Text, b: Text)
    ensures Below(a, b) <==> a < b || exists k: nat :: SmallerAt(a, b, k)
  {
    if a != [] && b != [] {
      if a[0] == b[0] {
        BelowExactly(a[1..], b[1..]);
        SameFirst(a, b, 0);
        if k: nat :| SmallerAt(a[1..], b[1..], k) {
          SameFirst(a, b, k);
        }
        if k: nat :| SmallerAt(a, b, k) {
          SameFirst(a, b, k - 1);
        }
      } else {
        assert a[..0] == b[..0];
        assert SmallerAt(a, b, 0) <==> a[0] < b[0];
      }
    }
  }

  predicate Ascending(names: seq<Text>) {
    forall i, j :: 0 <= i < j < |names| ==> Below(names[i], names[j])
  }

  lemma {:induction false} Trichotomy(a: Text, b: Text)
    ensures a == b || Below(a, b) || Below(b, a)
    ensures !(Below(a, b) && Below(b, a)) && !Below(a, a)
    decreases |a|
  {
    if a != [] {
      if b != [] {
        Trichotomy(a[1..], b[1..]);
        assert a == [a[0]] + a[1..] && b == [b[0]] + b[1..];
      }
      Trichotomy(a[1..], a[1..]);
    }
  }

  lemma {:induction false} Transitive(a: Text, b: Text, c: Text)
    requires Below(a, b) && Below(b, c)
    ensures Below(a, c)
  {
    if a != [] && a[0] == b[0] == c[0] {
      Transitive(a[1..], b[1..], c[1..]);
    }
  }

  lemma LeastExists(names: set<Text>) returns (least: Text)
    requires names != {}
    ensures least in names && forall n :: n in names && n != least ==> Below(least, n)
    decreases |names|
  {
    var some :| some in names;
    var others := names - {some};
    if others == {} {
      least := some;
      assert forall n :: n in names ==> n == some || n in others;
    } else {
      var rest := LeastExists(others);
      Trichotomy(some, rest);
      least := if Below(some, rest) then some else rest;
      forall n | n in names && n != least ensures Below(least, n) {
        if n != rest && n != some && least == some {
          Transitive(some, rest, n);
        }
      }
    }
  }

  /** `sorted`: the names, each once, in ascending order. */
  ghost function Sorted(names: set<Text>): (r: seq<Text>)
    ensures Ascending(r) && |r| == |names| && forall n :: n in r <==> n in names
    decreases |names|
  {
    if names == {} then []
    else
      assert exists least :: least in names && forall n :: n in names && n != least ==> Below(least, n) by {
        var least := LeastExists(names);
      }
      var least :| least in names && forall n :: n in names && n != least ==> Below(least, n);
      var rest := Sorted(names - {least});
      assert forall j :: 0 <= j < |rest| ==> rest[j] in names - {least};
      AscendingFrom(least, rest);
      [least] + rest
  }

  lemma AscendingFrom(least: Text, rest: seq<Text>)
    requires Ascending(rest) && forall n :: n in rest ==> Below(least, n)
    ensures Ascending([least] + rest)
  {
    var all := [least] + rest;
    forall i, j | 0 <= i < j < |all| ensures Below(all[i], all[j]) {
      assert all[j] == rest[j - 1];
    }
  }

  // ---- the query ------------------------------------------------------------------------------

  function Joined(pieces: seq<string>): string {
    if pieces == [] then ""
    else if |pieces| == 1 then pieces[0]
    else pieces[0] + "&" + Joined(pieces[1..])
  }

  function Piece(name: Text, value: Text): string {
    PercentEncode(name) + "=" + PercentEncode(value)
  }

  ghost function Pieces(params: map<Text, Text>, names: seq<Text>): (r: seq<string>)
    requires forall n :: n in names ==> n in params
    ensures |r| == |names|
  {
    seq(|names|, i requires 0 <= i < |names| => Piece(names[i], params[names[i]]))
  }

  ghost function CanonicalQuery(params: map<Text, Text>): string {
    Joined(Pieces(params, Sorted(params.Keys)))
  }

  // ---- a reader that undoes it ------------------------------------------------------------------

  /** The pieces' names and values; a repeated name keeps its last value. */
  function ReadPieces(pieces: seq<string>): map<Text, Text> {
    if pieces == [] then map[]
    else
      var parts := SplitOn(pieces[0], '=');
      var value := if |parts| > 1 then PercentDecode(parts[1]) else [];
      map[PercentDecode(parts[0]) := value] + ReadPieces(pieces[1..])
  }

  function ReadQuery(query: string): map<Text, Text> {
    if query == "" then map[] else ReadPieces(SplitOn(query, '&'))
  }

  lemma {:induction false} Decoded(text: Text)
    ensures PercentDecode(PercentEncode(text)) == text
    ensures '&' !in PercentEncode(text) && '=' !in PercentEncode(text)
  {
    if text != [] {
      Decoded(text[1..]);
      var s, rest := PercentEncode(text), PercentEncode(text[1..]);
      if Unreserved(text[0]) {
        assert s[1..] == rest;
      } else {
        assert s[3..] == rest;
      }
      assert text == [text[0]] + text[1..];
    }
  }

  lemma {:induction false} SplitUndoesJoin(pieces: seq<string>)
    requires pieces != [] && forall p :: p in pieces ==> '&' !in p
    ensures SplitOn(Joined(pieces), '&') == pieces
    decreases |pieces|
  {
    if |pieces| == 1 {
      SplitWhole(pieces[0], '&');
    } else {
      SplitUndoesJoin(pieces[1..]);
      SplitFirst(pieces[0], '&', Joined(pieces[1..]));
      assert pieces == [pieces[0]] + pieces[1..];
    }
  }

  lemma PieceReads(name: Text, value: Text)
    ensures SplitOn(Piece(name, value), '=') == [PercentEncode(name), PercentEncode(value)]
    ensures '&' !in Piece(name, value)
  {
    Decoded(name);
    Decoded(value);
    SplitFirst(PercentEncode(name), '=', PercentEncode(value));
    SplitWhole(PercentEncode(value), '=');
  }

  ghost function Restricted(params: map<Text, Text>, names: seq<Text>): map<Text, Text>
    requires forall n :: n in names ==> n in params
  {
    map n | n in names :: params[n]
  }

  lemma OnePieceRead(name: Text, value: Text, pieces: seq<string>)
    ensures ReadPieces([Piece(name, value)] + pieces) == map[name := value] + ReadPieces(pieces)
  {
    PieceReads(name, value);
    Decoded(name);
    Decoded(value);
    assert ([Piece(name, value)] + pieces)[1..] == pieces;
  }

  lemma RestrictedGrows(params: map<Text, Text>, name: Text, rest: seq<Text>)
    requires name in params && name !in rest && forall n :: n in rest ==> n in params
    ensures Restricted(params, [name] + rest) == map[name := params[name]] + Restricted(params, rest)
  {}

  lemma PiecesStart(params: map<Text, Text>, name: Text, rest: seq<Text>)
    requires name in params && forall n :: n in rest ==> n in params
    ensures Pieces(params, [name] + rest) == [Piece(name, params[name])] + Pieces(params, rest)
  {}

  predicate Distinct(names: seq<Text>) {
    forall i, j :: 0 <= i < j < |names| ==> names[i] != names[j]
  }

  lemma AscendingIsDistinct(names: seq<Text>)
    requires Ascending(names)
    ensures Distinct(names)
  {
    forall i, j | 0 <= i < j < |names| ensures names[i] != names[j] {
      Trichotomy(names[i], names[j]);
    }
  }

  /** Distinct names read back to exactly the parameters they name. */
  lemma {:induction false} PiecesReadBack(params: map<Text, Text>, names: seq<Text>)
    requires Distinct(names) && forall n :: n in names ==> n in params
    ensures ReadPieces(Pieces(params, names)) == Restricted(params, names)
    decreases |names|
  {
    if names != [] {
      var name, rest := names[0], names[1..];
      assert names == [name] + rest;
      PiecesReadBack(params, rest);
      PiecesStart(params, name, rest);
      OnePieceRead(name, params[name], Pieces(params, rest));
      RestrictedGrows(params, name, rest);
    }
  }

  /** Splitting on the two separators and undoing the encoding gives the parameters back. */
  lemma QueryReadsBack(params: map<Text, Text>)
    ensures ReadQuery(CanonicalQuery(params)) == params
  {
    var names := Sorted(params.Keys);
    var pieces := Pieces(params, names);
    AscendingIsDistinct(names);
    PiecesReadBack(params, names);
    assert Restricted(params, names) == params;
    if names != [] {
      forall p | p in pieces ensures '&' !in p {
        var i :| 0 <= i < |pieces| && pieces[i] == p;
        PieceReads(names[i], params[names[i]]);
      }
      SplitUndoesJoin(pieces);
      assert '=' in pieces[0];
    }
  }

  /** No two sets of parameters are signed alike. */
  lemma QueryIsInjective(p: map<Text, Text>, q: map<Text, Text>)
    requires CanonicalQuery(p) == CanonicalQuery(q)
    ensures p == q
  {
    QueryReadsBack(p);
    QueryReadsBack(q);
  }
}
