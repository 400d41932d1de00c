/**
 UTF-8 as the tokenizers use it: well-formedness by section 4 of RFC 3629 and the
 replacement of maximal subparts by U+FFFD of section 3.9 of the Unicode Standard.
 A Rust `String` is a sequence of bytes that is `Valid`.
 */
module Utf8 {
  newtype byte = x: int | 0 <= x < 256

  /** The bytes of U+FFFD. */
  const REPLACEMENT: seq<byte> := [0xEF, 0xBF, 0xBD]

  predicate IsContinuation(b: byte) { 0x80 <= b <= 0xBF }

  /** How many bytes a character with this first byte has; 0 if no character starts with it. */
  function Need(lead: byte): (n: nat)
    ensures n <= 4
  {
    if lead <= 0x7F then 1
    else if 0xC2 <= lead <= 0xDF then 2
    else if 0xE0 <= lead <= 0xEF then 3
    else if 0xF0 <= lead <= 0xF4 then 4
    else 0
  }

  predicate SecondOk(lead: byte, b: byte) {
    && (if lead == 0xE0 then 0xA0 else if lead == 0xF0 then 0x90 else 0x80) <= b
    && b <= (if lead == 0xED then 0x9F else if lead == 0xF4 then 0x8F else 0xBF)
  }

  /** The length of the longest beginning of `s` that also begins some character. */
  function Matched(s: seq<byte>): (n: nat)
    requires s != []
    ensures n <= |s| && n <= Need(s[0])
  {
    var need := Need(s[0]);
    if need <= 1 then need
    else if |s| < 2 || !SecondOk(s[0], s[1]) then 1
    else if need == 2 || |s| < 3 || !IsContinuation(s[2]) then 2
    else if need == 3 || |s| < 4 || !IsContinuation(s[3]) then 3
    else 4
  }

  /** `s` begins with a whole character. */
  predicate StartsWithChar(s: seq<byte>)
    requires s != []
  {
    Need(s[0]) > 0 && Matched(s) == Need(s[0])
  }

  /** The size of the first unit of `s`: a character, or the maximal subpart that one U+FFFD replaces. */
  function UnitLen(s: seq<byte>): (n: nat)
    requires s != []
    ensures 0 < n <= |s|
  {
    if Need(s[0]) == 0 then 1 else Matched(s)
  }

  /** `s` is the beginning of a character whose rest is still missing. */
  predicate Open(s: seq<byte>)
    requires s != []
  {
    Matched(s) == |s| && Matched(s) < Need(s[0])
  }

  predicate Valid(s: seq<byte>) {
    s != [] ==> StartsWithChar(s) && Valid(s[UnitLen(s)..])
  }

  /** No character is left unfinished at the end; replaced bytes inside are allowed. */
  predicate Clean(s: seq<byte>) {
    s != [] ==> !Open(s) && Clean(s[UnitLen(s)..])
  }

  /** `String::from_utf8_lossy`. */
  function Lossy(s: seq<byte>): seq<byte> {
    if s == [] then []
    else (if StartsWithChar(s) then s[..UnitLen(s)] else REPLACEMENT) + Lossy(s[UnitLen(s)..])
  }

  /** Only an unfinished character at the very end can be affected by what follows. */
  lemma UnitIsLocal(s: seq<byte>, x: seq<byte>)
    requires s != [] && !Open(s)
    ensures UnitLen(s + x) == UnitLen(s) && StartsWithChar(s + x) == StartsWithChar(s)
    ensures !Open(s + x)
    ensures (s + x)[UnitLen(s)..] == s[UnitLen(s)..] + x
    ensures (s + x)[..UnitLen(s)] == s[..UnitLen(s)]
  {
  }

  /** Decoding can be split at every point where no character is unfinished. */
  lemma {:induction false} LossySplits(s: seq<byte>, x: seq<byte>)
    requires Clean(s)
    ensures Lossy(s + x) == Lossy(s) + Lossy(x)
    ensures Clean(s + x) <==> Clean(x)
  {
    if s == [] {
      assert s + x == x;
    } else {
      UnitIsLocal(s, x);
      LossySplits(s[UnitLen(s)..], x);
    }
  }

  lemma {:induction false} ValidIsClean(s: seq<byte>)
    requires Valid(s)
    ensures Clean(s) && Lossy(s) == s
  {
    if s != [] {
      ValidIsClean(s[UnitLen(s)..]);
    }
  }

  /** Where no character is unfinished, a whole is valid exactly when both parts are. */
  lemma {:induction false} ValidSplits(s: seq<byte>, x: seq<byte>)
    requires Clean(s)
    ensures Valid(s + x) <==> Valid(s) && Valid(x)
  {
    if s == [] {
      assert s + x == x;
    } else {
      UnitIsLocal(s, x);
      ValidSplits(s[UnitLen(s)..], x);
    }
  }

  lemma ValidConcat(s: seq<byte>, x: seq<byte>)
    requires Valid(s) && Valid(x)
    ensures Valid(s + x)
  {
    ValidIsClean(s);
    ValidSplits(s, x);
  }

  lemma OneChar(s: seq<byte>)
    requires s != [] && StartsWithChar(s)
    ensures Valid(s[..UnitLen(s)])
  {
    var c := s[..UnitLen(s)];
    assert UnitLen(c) == |c| && StartsWithChar(c);
    assert c[UnitLen(c)..] == [];
  }

  lemma ReplacementIsChar()
    ensures Valid(REPLACEMENT) && UnitLen(REPLACEMENT) == 3
  {
    OneChar(REPLACEMENT);
    assert REPLACEMENT[..3] == REPLACEMENT;
  }

  lemma {:induction false} LossyIsValid(s: seq<byte>)
    ensures Valid(Lossy(s))
    ensures Lossy(s) == [] <==> s == []
  {
    if s != [] {
      LossyIsValid(s[UnitLen(s)..]);
      if StartsWithChar(s) {
        OneChar(s);
        ValidConcat(s[..UnitLen(s)], Lossy(s[UnitLen(s)..]));
      } else {
        ReplacementIsChar();
        ValidConcat(REPLACEMENT, Lossy(s[UnitLen(s)..]));
      }
    }
  }

  // ----- slicing a string

  /** `str::is_char_boundary`, for any index. */
  predicate IsBoundary(text: seq<byte>, i: int) {
    i == 0 || i == |text| || (0 < i < |text| && !IsContinuation(text[i]))
  }

  lemma BoundaryBetween(x: seq<byte>, y: seq<byte>)
    requires Valid(y)
    ensures IsBoundary(x + y, |x|)
  {
  }

  // ----- U+FFFD at the end and inside

  predicate EndsWithReplacement(text: seq<byte>) {
    |text| >= 3 && text[|text| - 3..] == REPLACEMENT
  }

  /** A nonempty valid ending decides whether a text ends in U+FFFD. */
  lemma EndingDecides(x: seq<byte>, y: seq<byte>)
    requires Valid(y) && y != []
    ensures EndsWithReplacement(x + y) <==> EndsWithReplacement(y)
  {
    var t := x + y;
    if |y| >= 3 {
      assert t[|t| - 3..] == y[|y| - 3..];
    } else if |t| >= 3 {
      assert t[|t| - 3..][3 - |y|] == y[0];
    }
  }

  /** An unfinished character always shows as a trailing U+FFFD. */
  lemma {:induction false} UnfinishedShows(s: seq<byte>)
    requires !Clean(s)
    ensures EndsWithReplacement(Lossy(s))
  {
    var rest := s[UnitLen(s)..];
    if Open(s) {
      assert rest == [];
      assert Lossy(s) == REPLACEMENT;
    } else {
      UnfinishedShows(rest);
      LossyIsValid(rest);
      EndingDecides(if StartsWithChar(s) then s[..UnitLen(s)] else REPLACEMENT, Lossy(rest));
    }
  }

  /** What can still become valid text and has no unfinished character is valid text. */
  lemma CleanPrefixIsValid(s: seq<byte>, x: seq<byte>)
    requires Clean(s) && Valid(s + x)
    ensures Valid(s)
  {
    ValidSplits(s, x);
  }

  /** Removes every U+FFFD from a text: `replace('\u{FFFD}', "")`. */
  function Stripped(s: seq<byte>): seq<byte> {
    if s == [] then []
    else (if s[..UnitLen(s)] == REPLACEMENT then [] else s[..UnitLen(s)]) + Stripped(s[UnitLen(s)..])
  }

  lemma {:induction false} StrippedSplits(s: seq<byte>, x: seq<byte>)
    requires Clean(s)
    ensures Stripped(s + x) == Stripped(s) + Stripped(x)
  {
    if s == [] {
      assert s + x == x;
    } else {
      UnitIsLocal(s, x);
      StrippedSplits(s[UnitLen(s)..], x);
    }
  }

  // ----- splitting is possible only there

  /** The bytes that complete an unfinished character. */
  function Completion(s: seq<byte>): seq<byte>
    requires s != [] && Open(s)
  {
    var second: byte := if s[0] == 0xE0 then 0xA0 else if s[0] == 0xF0 then 0x90 else 0x80;
    ([second, 0x80, 0x80][|s| - 1..])[..Need(s[0]) - |s|]
  }

  lemma CompletionWorks(s: seq<byte>)
    requires s != [] && Open(s)
    ensures var x := Completion(s);
            var c := s + x;
            && |c| == Need(s[0]) && x != [] && Need(x[0]) == 0
            && Matched(c) == |c|
            && (|c| >= 3 ==> c[|c| - 1] == 0x80 && IsContinuation(c[2]))
  {
    var x := Completion(s);
    var c := s + x;
    assert |c| == Need(s[0]);
    assert c[0] == s[0];
    assert forall i | 0 <= i < |s| :: c[i] == s[i];
    if |s| == 1 {
      assert c[1] == x[0];
    }
  }

  lemma CompletionIsChar(s: seq<byte>)
    requires s != [] && Open(s)
    ensures var x := Completion(s);
            var c := s + x;
            && |c| <= 4 && x != [] && Need(x[0]) == 0
            && StartsWithChar(c) && UnitLen(c) == |c| && !EndsWithReplacement(c)
            && (|c| == 4 ==> IsContinuation(c[3]))
  {
    hide Completion, Open, Matched;
    CompletionWorks(s);
    var c := s + Completion(s);
    assert c[0] == s[0];
    assert |c| >= 3 ==> c[|c| - 3..][2] == 0x80;
  }

  lemma WholeChar(c: seq<byte>)
    requires c != [] && StartsWithChar(c) && UnitLen(c) == |c|
    ensures Valid(c) && Lossy(c) == c
  {
    hide StartsWithChar, UnitLen;
    assert c[UnitLen(c)..] == [];
    ValidIsClean(c);
  }

  lemma OpenDecodes(s: seq<byte>)
    requires s != [] && Open(s)
    ensures Lossy(s) == REPLACEMENT
  {
    assert s[UnitLen(s)..] == [];
    assert Lossy(s[UnitLen(s)..]) == [];
  }

  lemma NonLeadDecodes(x: seq<byte>)
    requires x != [] && Need(x[0]) == 0
    ensures |Lossy(x)| >= 3
  {
    assert !StartsWithChar(x);
  }

  /** `x` completes the unfinished character at the end of `s` to `c`; `head` is the text before it. */
  ghost predicate Completes(s: seq<byte>, head: seq<byte>, c: seq<byte>, x: seq<byte>) {
    && x != [] && c != [] && |c| <= 4 && Valid(c) && !EndsWithReplacement(c)
    && (|c| == 4 ==> IsContinuation(c[3]))
    && Lossy(s) == head + REPLACEMENT && Lossy(s + x) == head + c && |Lossy(x)| >= 3
  }

  lemma CompletesOpen(s: seq<byte>)
    requires s != [] && Open(s)
    ensures Completes(s, [], s + Completion(s), Completion(s))
  {
    hide Completion, StartsWithChar, UnitLen, Lossy, Valid, Open, EndsWithReplacement, Matched, Need;
    var x := Completion(s);
    var c := s + x;
    CompletionIsChar(s);
    OpenDecodes(s);
    NonLeadDecodes(x);
    WholeChar(c);
    assert [] + c == c && [] + REPLACEMENT == REPLACEMENT;
  }

  /** An unfinished character at the end decodes to a U+FFFD that completing it takes back. */
  lemma {:induction false} UnfinishedEnd(s: seq<byte>) returns (head: seq<byte>, c: seq<byte>, x: seq<byte>)
    requires !Clean(s)
    ensures Completes(s, head, c, x)
  {
    hide Completes, Completion;
    if Open(s) {
      CompletesOpen(s);
      head, c, x := [], s + Completion(s), Completion(s);
    } else {
      CleanTail(s);
      head, c, x := UnfinishedEnd(s[UnitLen(s)..]);
      head := PrependUnit(s, x, head, c);
    }
  }

  lemma CleanTail(s: seq<byte>)
    requires s != [] && !Open(s)
    ensures Clean(s) <==> Clean(s[UnitLen(s)..])
  {
  }

  lemma PrependUnit(s: seq<byte>, x: seq<byte>, head: seq<byte>, c: seq<byte>) returns (longer: seq<byte>)
    requires s != [] && !Open(s) && Completes(s[UnitLen(s)..], head, c, x)
    ensures Completes(s, longer, c, x)
  {
    hide Open, UnitLen, Lossy, Valid, EndsWithReplacement, IsContinuation;
    var unit := LossyPrefix(s, x);
    longer := unit + head;
    assert unit + (head + c) == longer + c && unit + (head + REPLACEMENT) == longer + REPLACEMENT;
  }

  lemma LossyPrefix(s: seq<byte>, x: seq<byte>) returns (unit: seq<byte>)
    requires s != [] && !Open(s)
    ensures Lossy(s) == unit + Lossy(s[UnitLen(s)..])
    ensures Lossy(s + x) == unit + Lossy(s[UnitLen(s)..] + x)
  {
    hide Open, StartsWithChar, UnitLen;
    UnitIsLocal(s, x);
    unit := if StartsWithChar(s) then s[..UnitLen(s)] else REPLACEMENT;
  }

  /** Decoding in two parts agrees with decoding the whole for every continuation exactly when
      the first part leaves no character unfinished. */
  lemma SplitsIffClean(s: seq<byte>)
    ensures Clean(s) <==> forall x :: Lossy(s + x) == Lossy(s) + Lossy(x)
  {
    if Clean(s) {
      forall x
        ensures Lossy(s + x) == Lossy(s) + Lossy(x)
      {
        LossySplits(s, x);
      }
    } else {
      var head, c, x := UnfinishedEnd(s);
      assert |Lossy(s + x)| < |Lossy(s) + Lossy(x)|;
    }
  }
}
