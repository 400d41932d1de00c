/** The meaning of the byte-level definitions in Utf8.dfy: valid byte strings are exactly the encodings
    of lists of Unicode scalar values, by the arithmetic of section 3 of RFC 3629. */
module CodePoints {
  import opened Utf8

  predicate IsScalar(v: nat) { v < 0xD800 || 0xE000 <= v < 0x11_0000 }

  /** A continuation byte carries six bits. */
  function Continuation(v: nat): byte { (0x80 + v % 64) as byte }

  function Encode(v: nat): (r: seq<byte>)
    requires IsScalar(v)
    ensures r != []
  {
    var v1 := v / 64;
    var v2 := v1 / 64;
    var v3 := v2 / 64;
    if v < 0x80 then [v as byte]
    else if v < 0x800 then [(0xC0 + v1) as byte, Continuation(v)]
    else if v < 0x1_0000 then [(0xE0 + v2) as byte, Continuation(v1), Continuation(v)]
    else [(0xF0 + v3) as byte, Continuation(v2), Continuation(v1), Continuation(v)]
  }

  ghost predicate Scalars(vs: seq<nat>) {
    forall i :: 0 <= i < |vs| ==> IsScalar(vs[i])
  }

  function Encoded(vs: seq<nat>): seq<byte>
    requires Scalars(vs)
  {
    if vs == [] then [] else Encode(vs[0]) + Encoded(vs[1..])
  }

  /** The number whose last six bits are those of continuation byte `b`. */
  function Shifted(v: nat, b: byte): (r: nat)
    requires IsContinuation(b)
    ensures 64 * v <= r < 64 * v + 64 && r / 64 == v && Continuation(r) == b
  {
    64 * v + (b as int - 0x80)
  }

  lemma ShiftedBack(v: nat)
    ensures IsContinuation(Continuation(v)) && Shifted(v / 64, Continuation(v)) == v
  {
  }

  /** The scalar value of the character that `s` begins with. */
  function Value(s: seq<byte>): nat
    requires s != [] && StartsWithChar(s)
  {
    var n := Need(s[0]);
    if n == 1 then s[0] as nat
    else if n == 2 then Shifted((s[0] - 0xC0) as nat, s[1])
    else if n == 3 then Shifted(Shifted((s[0] - 0xE0) as nat, s[1]), s[2])
    else Shifted(Shifted(Shifted((s[0] - 0xF0) as nat, s[1]), s[2]), s[3])
  }

  lemma EncodeStarts(v: nat)
    requires IsScalar(v)
    ensures StartsWithChar(Encode(v)) && UnitLen(Encode(v)) == |Encode(v)| && !Open(Encode(v))
  {
    ShiftedBack(v);
    ShiftedBack(v / 64);
    ShiftedBack(v / 64 / 64);
    hide Shifted;
  }

  lemma EncodeHasValue(v: nat)
    requires IsScalar(v) && StartsWithChar(Encode(v))
    ensures Value(Encode(v)) == v
  {
    var e := Encode(v);
    ShiftedBack(v);
    ShiftedBack(v / 64);
    ShiftedBack(v / 64 / 64);
    hide Shifted, Continuation, Matched;
    assert Need(e[0]) == |e|;
    hide Need;
  }

  /** The value depends on the first character alone. */
  lemma ValueIsLocal(s: seq<byte>, rest: seq<byte>)
    requires s != [] && StartsWithChar(s) && StartsWithChar(s + rest)
    ensures Value(s + rest) == Value(s)
  {
    hide Shifted;
  }

  lemma EncodeIsChar(v: nat, rest: seq<byte>)
    requires IsScalar(v)
    ensures var s := Encode(v) + rest;
            StartsWithChar(s) && UnitLen(s) == |Encode(v)| && Value(s) == v && s[UnitLen(s)..] == rest
  {
    hide Encode, StartsWithChar, UnitLen, Value, Open;
    EncodeStarts(v);
    UnitIsLocal(Encode(v), rest);
    EncodeHasValue(v);
    ValueIsLocal(Encode(v), rest);
    assert Encode(v)[|Encode(v)|..] + rest == rest;
  }

  lemma CharIsEncode(s: seq<byte>)
    requires s != [] && StartsWithChar(s)
    ensures IsScalar(Value(s)) && Encode(Value(s)) == s[..UnitLen(s)]
  {
    hide Continuation;
    var n, v := Need(s[0]), Value(s);
    if n == 2 {
      assert Encode(v) == [s[0], s[1]];
    } else if n == 3 {
      var v1 := Shifted((s[0] - 0xE0) as nat, s[1]);
      assert 0x20 <= v1 < 0x400 && (v1 < 0x360 || 0x380 <= v1);
      assert Encode(v) == [s[0], s[1], s[2]];
    } else if n == 4 {
      var v2 := Shifted((s[0] - 0xF0) as nat, s[1]);
      assert 0x10 <= v2 < 0x110;
      var v1 := Shifted(v2, s[2]);
      assert v1 / 64 == v2 && v / 64 == v1;
      assert Encode(v) == [s[0], s[1], s[2], s[3]];
    }
  }

  function Decoded(s: seq<byte>): seq<nat>
    requires Valid(s)
  {
    if s == [] then [] else [Value(s)] + Decoded(s[UnitLen(s)..])
  }

  lemma {:induction false} EncodedRoundTrips(vs: seq<nat>)
    requires Scalars(vs)
    ensures Valid(Encoded(vs)) && Decoded(Encoded(vs)) == vs
  {
    if vs != [] {
      EncodedRoundTrips(vs[1..]);
      EncodeIsChar(vs[0], Encoded(vs[1..]));
    }
  }

  lemma {:induction false} DecodedRoundTrips(s: seq<byte>)
    requires Valid(s)
    ensures Scalars(Decoded(s)) && Encoded(Decoded(s)) == s
  {
    hide Value, Encode, StartsWithChar, UnitLen, IsScalar;
    if s != [] {
      CharIsEncode(s);
      DecodedRoundTrips(s[UnitLen(s)..]);
      assert Decoded(s)[1..] == Decoded(s[UnitLen(s)..]);
    }
  }

  /** A byte string is valid exactly when it encodes some list of scalar values. */
  lemma ValidIffEncoding(s: seq<byte>)
    ensures Valid(s) <==> exists vs :: Scalars(vs) && Encoded(vs) == s
  {
    if Valid(s) {
      DecodedRoundTrips(s);
    }
    if vs :| Scalars(vs) && Encoded(vs) == s {
      EncodedRoundTrips(vs);
    }
  }

  // ----- lossy decoding by characters

  /** `p` is a beginning of some character's encoding. */
  ghost predicate Begun(p: seq<byte>) {
    exists v :: IsScalar(v) && p <= Encode(v)
  }

  lemma MatchedPrefix(s: seq<byte>, k: nat)
    requires s != [] && 0 < k <= |s| && Need(s[0]) > 0
    ensures Matched(s[..k]) == k <==> k <= Matched(s)
  {
  }

  lemma BegunIsMatched(p: seq<byte>, v: nat)
    requires p != [] && IsScalar(v) && p <= Encode(v)
    ensures Need(p[0]) > 0 && Matched(p) == |p|
  {
    var e := Encode(v);
    EncodeStarts(v);
    hide Encode;
    assert p[0] == e[0] && p == e[..|p|];
    assert Need(e[0]) > 0 && Matched(e) == |e|;
    MatchedPrefix(e, |p|);
  }

  lemma MatchedIsBegun(p: seq<byte>)
    requires p != [] && Need(p[0]) > 0 && Matched(p) == |p|
    ensures Begun(p)
  {
    if Open(p) {
      hide Completion, StartsWithChar, UnitLen, Matched, Need;
      CompletionIsChar(p);
      WholeCharIsBegun(p + Completion(p), p);
    } else {
      hide Value, Encode;
      WholeCharIsBegun(p, p);
    }
  }

  lemma WholeCharIsBegun(c: seq<byte>, p: seq<byte>)
    requires c != [] && StartsWithChar(c) && UnitLen(c) == |c| && p <= c
    ensures Begun(p)
  {
    hide StartsWithChar, UnitLen, Encode, Value, IsScalar;
    CharIsEncode(c);
    assert c[..UnitLen(c)] == c;
    assert p <= Encode(Value(c));
  }

  /** A beginning of `s` begins a character exactly as far as `Matched` says. */
  lemma BegunIff(s: seq<byte>, k: nat)
    requires s != [] && 0 < k <= |s|
    ensures Begun(s[..k]) <==> Need(s[0]) > 0 && k <= Matched(s)
  {
    var p := s[..k];
    assert p[0] == s[0];
    if v :| IsScalar(v) && p <= Encode(v) {
      BegunIsMatched(p, v);
      MatchedPrefix(s, k);
    }
    if Need(s[0]) > 0 && k <= Matched(s) {
      MatchedPrefix(s, k);
      MatchedIsBegun(p);
    }
  }

  /** `n` is the length of the maximal subpart at the front of `s`: the longest beginning that also begins
      a character, or one byte if not even that begins one. */
  ghost predicate IsSubpart(s: seq<byte>, n: nat) {
    && 0 < n <= |s|
    && (n == 1 || Begun(s[..n]))
    && (forall k :: n < k <= |s| ==> !Begun(s[..k]))
  }

  /** No character stands at the front of `s`. */
  ghost predicate Broken(s: seq<byte>) {
    forall v :: IsScalar(v) ==> !(Encode(v) <= s)
  }

  lemma BrokenIff(s: seq<byte>)
    requires s != []
    ensures Broken(s) <==> !StartsWithChar(s)
  {
    if StartsWithChar(s) {
      CharIsEncode(s);
      assert Encode(Value(s)) <= s;
    }
    if v :| IsScalar(v) && Encode(v) <= s {
      EncodeIsChar(v, s[|Encode(v)|..]);
      assert s == Encode(v) + s[|Encode(v)|..];
    }
  }

  lemma UnitIsSubpart(s: seq<byte>)
    requires s != []
    ensures IsSubpart(s, UnitLen(s))
  {
    forall k | 0 < k <= |s|
      ensures Begun(s[..k]) <==> Need(s[0]) > 0 && k <= Matched(s)
    {
      BegunIff(s, k);
    }
    hide Begun;
  }

  lemma SubpartUnique(s: seq<byte>, m: nat, n: nat)
    requires IsSubpart(s, m) && IsSubpart(s, n)
    ensures m == n
  {
    hide Begun;
  }

  /** A character at the front is kept. */
  lemma LossyKeepsChar(v: nat, rest: seq<byte>)
    requires IsScalar(v)
    ensures Lossy(Encode(v) + rest) == Encode(v) + Lossy(rest)
  {
    hide Encode, StartsWithChar, UnitLen, Value;
    EncodeIsChar(v, rest);
    assert (Encode(v) + rest)[..|Encode(v)|] == Encode(v);
  }

  /** Where no character stands at the front, one U+FFFD replaces exactly the maximal subpart. */
  lemma LossyReplacesSubpart(s: seq<byte>, n: nat)
    requires s != [] && Broken(s) && IsSubpart(s, n)
    ensures Lossy(s) == Encode(0xFFFD) + Lossy(s[n..])
  {
    hide Broken, IsSubpart, UnitLen, StartsWithChar;
    BrokenIff(s);
    UnitIsSubpart(s);
    SubpartUnique(s, n, UnitLen(s));
    ReplacementIsEncoded();
  }

  lemma ReplacementIsEncoded()
    ensures Encode(0xFFFD) == REPLACEMENT
  {
  }

  // ----- text by scalar values

  lemma {:induction false} EncodedConcat(x: seq<nat>, y: seq<nat>)
    requires Scalars(x) && Scalars(y)
    ensures Scalars(x + y) && Encoded(x + y) == Encoded(x) + Encoded(y)
  {
    hide Encode, IsScalar;
    if x == [] {
      assert x + y == y;
    } else {
      assert (x + y)[1..] == x[1..] + y;
      EncodedConcat(x[1..], y);
    }
  }

  lemma EncodedOne(v: nat)
    requires IsScalar(v)
    ensures Encoded([v]) == Encode(v)
  {
    assert Encoded([v][1..]) == [];
    assert Encode(v) + [] == Encode(v);
  }

  /** `vs` without the value `x`; everything else keeps its order. */
  function Without(vs: seq<nat>, x: nat): seq<nat> {
    if vs == [] then [] else (if vs[0] == x then [] else [vs[0]]) + Without(vs[1..], x)
  }

  /** What determines `Without`: it drops `x`, keeps any other single value, and works on parts. */
  lemma {:induction false} WithoutIs(vs: seq<nat>, ws: seq<nat>, x: nat, v: nat)
    ensures Without([v], x) == if v == x then [] else [v]
    ensures Without(vs + ws, x) == Without(vs, x) + Without(ws, x)
    ensures x !in Without(vs, x) && (x !in vs ==> Without(vs, x) == vs)
    ensures Scalars(vs) ==> Scalars(Without(vs, x))
  {
    hide IsScalar;
    assert Without([v][1..], x) == [];
    if vs == [] {
      assert vs + ws == ws;
    } else {
      assert (vs + ws)[1..] == vs[1..] + ws;
      WithoutIs(vs[1..], ws, x, v);
      assert vs == [vs[0]] + vs[1..];
    }
  }

  lemma StrippedUnfolds(s: seq<byte>)
    requires s != []
    ensures Stripped(s) == (if s[..UnitLen(s)] == REPLACEMENT then [] else s[..UnitLen(s)]) + Stripped(s[UnitLen(s)..])
  {
  }

  lemma EncodeIsReplacementIff(v: nat)
    requires IsScalar(v)
    ensures Encode(v) == REPLACEMENT <==> v == 0xFFFD
  {
    hide Encode, Value, StartsWithChar;
    ReplacementIsEncoded();
    EncodeIsChar(v, []);
    EncodeIsChar(0xFFFD, []);
    assert Encode(v) + [] == Encode(v) && Encode(0xFFFD) + [] == Encode(0xFFFD);
  }

  /** Stripping removes every U+FFFD and nothing else. */
  lemma {:induction false} StrippedIsWithout(vs: seq<nat>)
    requires Scalars(vs)
    ensures Scalars(Without(vs, 0xFFFD)) && Stripped(Encoded(vs)) == Encoded(Without(vs, 0xFFFD))
  {
    hide Encode, IsScalar, Stripped, UnitLen, Value, StartsWithChar;
    WithoutIs(vs, [], 0xFFFD, 0);
    if vs == [] {
      assert Stripped([]) == [] by { StrippedNothing(); }
    } else {
      var v, rest := vs[0], Encoded(vs[1..]);
      StrippedIsWithout(vs[1..]);
      EncodeIsChar(v, rest);
      StrippedUnfolds(Encode(v) + rest);
      assert (Encode(v) + rest)[..|Encode(v)|] == Encode(v);
      EncodeIsReplacementIff(v);
      var kept := Without(vs[1..], 0xFFFD);
      assert ([v] + kept)[1..] == kept && [] + kept == kept;
      assert Without(vs, 0xFFFD) == if v == 0xFFFD then kept else [v] + kept;
      assert [] + Stripped(rest) == Stripped(rest);
    }
  }

  lemma StrippedNothing()
    ensures Stripped([]) == []
  {
  }

  /** The same for text given as bytes; text without U+FFFD stays as it is. */
  lemma StrippedText(s: seq<byte>)
    requires Valid(s)
    ensures Valid(Stripped(s)) && Decoded(Stripped(s)) == Without(Decoded(s), 0xFFFD)
    ensures 0xFFFD !in Decoded(s) ==> Stripped(s) == s
  {
    hide Stripped, Valid, Decoded, Encoded;
    DecodedRoundTrips(s);
    StrippedIsWithout(Decoded(s));
    EncodedRoundTrips(Without(Decoded(s), 0xFFFD));
    WithoutIs(Decoded(s), [], 0xFFFD, 0);
  }

  /** A text counts as unfinished exactly if its last character is U+FFFD. */
  lemma EndsWithReplacementIff(vs: seq<nat>)
    requires Scalars(vs)
    ensures EndsWithReplacement(Encoded(vs)) <==> vs != [] && vs[|vs| - 1] == 0xFFFD
  {
    hide Encode, EndsWithReplacement, Encoded, Valid, Decoded;
    if vs == [] {
      NothingEndsNot();
    } else {
      var front, v := vs[..|vs| - 1], vs[|vs| - 1];
      assert IsScalar(v);
      hide IsScalar;
      assert vs == front + [v];
      EncodedConcat(front, [v]);
      EncodedOne(v);
      EncodedRoundTrips([v]);
      EndingDecides(Encoded(front), Encode(v));
      OneEndsWithReplacement(v);
    }
  }

  lemma NothingEndsNot()
    ensures Encoded([]) == [] && !EndsWithReplacement([])
  {
  }

  lemma OneEndsWithReplacement(v: nat)
    requires IsScalar(v)
    ensures EndsWithReplacement(Encode(v)) <==> v == 0xFFFD
  {
    EncodeIsReplacementIff(v);
    EncodeStarts(v);
    var e := Encode(v);
    assert |e| <= 4;
    hide Encode;
    if |e| == 3 {
      assert e[0..] == e;
    } else if |e| == 4 {
      assert e[1..][0] == e[1];
      assert IsContinuation(e[1]);
    }
    ReplacementIsEncoded();
  }

  /** An index is a boundary exactly if it lies between two characters, or at an end. */
  lemma BoundaryIff(vs: seq<nat>, i: int)
    requires Scalars(vs)
    ensures IsBoundary(Encoded(vs), i) <==> exists k :: 0 <= k <= |vs| && i == |Encoded(vs[..k])|
  {
    hide Encode, IsScalar, IsBoundary;
    assert vs[..|vs|] == vs && vs[..0] == [];
    if k :| 0 <= k <= |vs| && i == |Encoded(vs[..k])| {
      assert vs == vs[..k] + vs[k..];
      EncodedConcat(vs[..k], vs[k..]);
      EncodedRoundTrips(vs[k..]);
      BoundaryBetween(Encoded(vs[..k]), Encoded(vs[k..]));
    }
    if IsBoundary(Encoded(vs), i) {
      var k := BoundaryAt(vs, i);
    }
  }

  lemma {:induction false} BoundaryAt(vs: seq<nat>, i: int) returns (k: nat)
    requires Scalars(vs) && IsBoundary(Encoded(vs), i)
    ensures k <= |vs| && i == |Encoded(vs[..k])|
  {
    if i == 0 {
      k := 0;
      assert vs[..0] == [];
    } else {
      var e, rest := Encode(vs[0]), Encoded(vs[1..]);
      InsideChar(vs[0], rest, i);
      hide Encode, IsScalar;
      k := BoundaryAt(vs[1..], i - |e|);
      k := k + 1;
      assert vs[..k][1..] == vs[1..][..k - 1] && vs[..k][0] == vs[0];
    }
  }

  lemma InsideChar(v: nat, rest: seq<byte>, i: int)
    requires IsScalar(v) && IsBoundary(Encode(v) + rest, i) && i != 0
    ensures i >= |Encode(v)| && IsBoundary(rest, i - |Encode(v)|)
  {
    var e := Encode(v);
    ShiftedBack(v);
    ShiftedBack(v / 64);
    ShiftedBack(v / 64 / 64);
    assert forall j :: 0 < j < |e| ==> IsContinuation(e[j]);
    hide Encode, Continuation, Shifted;
  }
}
