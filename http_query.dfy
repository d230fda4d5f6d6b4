/**
 * PHP's `http_build_query` on an array of scalars, as the player configuration uses it: entries in
 * order, `key=value` joined by `&`, entries whose value is null left out, booleans written as `1`
 * and `0`, integers in decimal, and keys and string values passed through the URL encoder, which
 * is a parameter here.
 */
module HttpQuery {
  import opened PhpArray

  /** The URL encoder never produces a separator: `urlencode` percent-encodes `&`. */
  ghost predicate EncodesSeparators(encode: string -> string) {
    forall s :: '&' !in encode(s)
  }

  /** The number a string of decimal digits denotes, most significant digit first. */
  function DecimalValue(digits: string): int {
    if digits == [] then 0
    else DecimalValue(digits[..|digits| - 1]) * 10 + (digits[|digits| - 1] as int - '0' as int)
  }

  /** The decimal text of a natural number. */
  function NatText(n: nat): (r: string)
    ensures |r| > 0 && forall j :: 0 <= j < |r| ==> '0' <= r[j] <= '9'
    decreases n
  {
    var digit := ['0' + (n % 10) as char];
    if n < 10 then digit else NatText(n / 10) + digit
  }

  /** The decimal text of an integer, with a leading `-` for a negative one. */
  function IntText(i: int): (r: string)
    ensures |r| > 0 && '&' !in r
    ensures (r[0] == '-') <==> i < 0
  {
    if i < 0 then "-" + NatText(-i) else NatText(i)
  }

  /** The digits `NatText` writes denote the number, with no leading zero. */
  lemma {:induction false} NatTextValue(n: nat)
    ensures DecimalValue(NatText(n)) == n
    ensures |NatText(n)| > 1 ==> NatText(n)[0] != '0'
    decreases n
  {
    if n >= 10 {
      NatTextValue(n / 10);
      var r := NatText(n);
      assert r[..|r| - 1] == NatText(n / 10);
    }
  }

  /**
   * The text `IntText` writes is a minus sign for a negative number, followed by digits only, and
   * those digits denote the absolute value.
   */
  lemma IntTextValue(i: int)
    ensures var r := IntText(i); var digits := if i < 0 then r[1..] else r;
      |digits| > 0 && (forall j :: 0 <= j < |digits| ==> '0' <= digits[j] <= '9')
      && DecimalValue(digits) == (if i < 0 then -i else i)
  {
    if i < 0 {
      NatTextValue(-i);
      assert IntText(i)[1..] == NatText(-i);
    } else {
      NatTextValue(i);
    }
  }

  /** How `http_build_query` writes a non-null scalar. */
  function ScalarText(v: Value, encode: string -> string): string
    requires !v.Null?
  {
    match v
    case Int(i) => IntText(i)
    case Bool(b) => if b then "1" else "0"
    case Str(s) => encode(s)
  }

  function PairText(k: string, v: Value, encode: string -> string): string
    requires !v.Null?
  {
    encode(k) + "=" + ScalarText(v, encode)
  }

  /** The `key=value` pieces of the entries from index `i` on, in table order, nulls skipped. */
  function QueryPairsFrom(t: Table, i: nat, encode: string -> string): (r: seq<string>)
    requires i <= |t|
    ensures |r| <= |t| - i
    ensures (forall j :: i <= j < |t| ==> !t[j].1.Null?) ==> |r| == |t| - i
    decreases |t| - i
  {
    if i == |t| then []
    else if t[i].1.Null? then QueryPairsFrom(t, i + 1, encode)
    else [PairText(t[i].0, t[i].1, encode)] + QueryPairsFrom(t, i + 1, encode)
  }

  /** The `key=value` pieces of the whole query. */
  function QueryPairs(t: Table, encode: string -> string): seq<string> {
    QueryPairsFrom(t, 0, encode)
  }

  function JoinAmp(pieces: seq<string>): string {
    if |pieces| == 0 then ""
    else if |pieces| == 1 then pieces[0]
    else pieces[0] + "&" + JoinAmp(pieces[1..])
  }

  /**
   * `http_build_query($t)` with the default `&` separator. Reading it back at `&` gives exactly
   * its pieces, one per non-null entry, in order, provided the encoder escapes `&`; with no
   * non-null entry the query is empty.
   */
  function HttpBuildQuery(t: Table, encode: string -> string): (r: string)
    ensures EncodesSeparators(encode) && |QueryPairs(t, encode)| > 0 ==> SplitAmp(r) == QueryPairs(t, encode)
    ensures |QueryPairs(t, encode)| == 0 ==> r == ""
  {
    JoinedPairsReadBack(t, encode);
    JoinAmp(QueryPairs(t, encode))
  }

  /** Splits a query string at every `&`: how a receiver reads it back. */
  function SplitAmp(s: string): (r: seq<string>)
    ensures |r| > 0
  {
    if s == [] then [""]
    else
      var rest := SplitAmp(s[1..]);
      if s[0] == '&' then [""] + rest else [[s[0]] + rest[0]] + rest[1..]
  }

  /** Two pieces without `&` joined by one read back as those two pieces. */
  lemma SplitAmpTwo(p: string, q: string)
    requires '&' !in p && '&' !in q
    ensures SplitAmp(p + "&" + q) == [p, q]
  {
    SplitAmpPiece(p, q);
    SplitAmpPiece(q, "");
  }

  lemma {:induction false} SplitAmpPiece(p: string, q: string)
    requires '&' !in p
    ensures SplitAmp(p) == [p]
    ensures SplitAmp(p + "&" + q) == [p] + SplitAmp(q)
  {
    if p == [] {
      assert p + "&" + q == "&" + q;
      assert ("&" + q)[1..] == q;
    } else {
      SplitAmpPiece(p[1..], q);
      assert (p + "&" + q)[1..] == p[1..] + "&" + q;
      assert [p[0]] + p[1..] == p;
    }
  }

  /** Splitting at `&` recovers the pieces a join put together, when no piece holds an `&`. */
  lemma {:induction false} SplitJoin(pieces: seq<string>)
    requires |pieces| > 0
    requires forall i :: 0 <= i < |pieces| ==> '&' !in pieces[i]
    ensures SplitAmp(JoinAmp(pieces)) == pieces
  {
    if |pieces| == 1 {
      SplitAmpPiece(pieces[0], "");
    } else {
      SplitJoin(pieces[1..]);
      SplitAmpPiece(pieces[0], JoinAmp(pieces[1..]));
    }
  }

  /** One step of `QueryPairsFrom`: the piece of entry `i`, if any, then the later ones. */
  lemma QueryPairsFromStep(t: Table, i: nat, encode: string -> string)
    requires i < |t|
    ensures t[i].1.Null? ==> QueryPairsFrom(t, i, encode) == QueryPairsFrom(t, i + 1, encode)
    ensures !t[i].1.Null? ==>
      QueryPairsFrom(t, i, encode) == [PairText(t[i].0, t[i].1, encode)] + QueryPairsFrom(t, i + 1, encode)
  {
  }

  /** Every piece from index `i` is the text of a later non-null entry. */
  lemma {:induction false} QueryPairsFromSound(t: Table, i: nat, encode: string -> string, x: nat) returns (j: nat)
    requires i <= |t| && x < |QueryPairsFrom(t, i, encode)|
    ensures i <= j < |t| && !t[j].1.Null? && QueryPairsFrom(t, i, encode)[x] == PairText(t[j].0, t[j].1, encode)
    decreases |t| - i
  {
    QueryPairsFromStep(t, i, encode);
    if t[i].1.Null? {
      j := QueryPairsFromSound(t, i + 1, encode, x);
    } else if x == 0 {
      j := i;
    } else {
      j := QueryPairsFromSound(t, i + 1, encode, x - 1);
    }
  }

  /** The text of each non-null entry at or after index `i` is among the pieces from `i`. */
  lemma {:induction false} QueryPairsFromComplete(t: Table, i: nat, encode: string -> string, j: nat)
    requires i <= j < |t| && !t[j].1.Null?
    ensures PairText(t[j].0, t[j].1, encode) in QueryPairsFrom(t, i, encode)
    decreases |t| - i
  {
    QueryPairsFromStep(t, i, encode);
    var rest := QueryPairsFrom(t, i + 1, encode);
    if i < j {
      QueryPairsFromComplete(t, i + 1, encode, j);
      if !t[i].1.Null? {
        assert QueryPairsFrom(t, i, encode)[1..] == rest;
      }
    } else {
      assert QueryPairsFrom(t, i, encode)[0] == PairText(t[j].0, t[j].1, encode);
    }
  }

  /** A piece is in the query exactly when it is the text of an entry whose value is not null. */
  lemma QueryPairsMembers(t: Table, encode: string -> string, p: string)
    ensures p in QueryPairs(t, encode) <==>
      exists i :: 0 <= i < |t| && !t[i].1.Null? && p == PairText(t[i].0, t[i].1, encode)
  {
    if p in QueryPairs(t, encode) {
      var x :| 0 <= x < |QueryPairs(t, encode)| && QueryPairs(t, encode)[x] == p;
      var i := QueryPairsFromSound(t, 0, encode, x);
    }
    if exists i :: 0 <= i < |t| && !t[i].1.Null? && p == PairText(t[i].0, t[i].1, encode) {
      var i :| 0 <= i < |t| && !t[i].1.Null? && p == PairText(t[i].0, t[i].1, encode);
      QueryPairsFromComplete(t, 0, encode, i);
    }
  }

  lemma {:induction false} QueryPairsHaveNoSeparator(t: Table, i: nat, encode: string -> string)
    requires i <= |t|
    requires EncodesSeparators(encode)
    ensures forall j :: 0 <= j < |QueryPairsFrom(t, i, encode)| ==> '&' !in QueryPairsFrom(t, i, encode)[j]
    decreases |t| - i
  {
    if i < |t| {
      QueryPairsHaveNoSeparator(t, i + 1, encode);
      if !t[i].1.Null? {
        var k, v := t[i].0, t[i].1;
        assert '&' !in encode(k);
        assert '&' !in ScalarText(v, encode);
      }
    }
  }

  lemma JoinedPairsReadBack(t: Table, encode: string -> string)
    ensures EncodesSeparators(encode) && |QueryPairs(t, encode)| > 0 ==>
      SplitAmp(JoinAmp(QueryPairs(t, encode))) == QueryPairs(t, encode)
  {
    if EncodesSeparators(encode) && |QueryPairs(t, encode)| > 0 {
      QueryPairsHaveNoSeparator(t, 0, encode);
      SplitJoin(QueryPairs(t, encode));
    }
  }
}
