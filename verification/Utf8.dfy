/**
 UTF-8 as RFC 3629 defines it, twice: section 4's byte patterns, which Go's decoder checks, and
 section 3's encoding of scalar values. The two agree.
 */
module Utf8 {

  type Byte = b: int | 0 <= b < 256

  // ---------- Byte patterns ----------

  /** How many bytes a sequence with this first byte has; 0 if none starts so. */
  function Need(b0: Byte): nat {
    if b0 < 0x80 then 1
    else if 0xC2 <= b0 <= 0xDF then 2
    else if 0xE0 <= b0 <= 0xEF then 3
    else if 0xF0 <= b0 <= 0xF4 then 4
    else 0
  }

  /** The least and greatest second byte after a given first one. */
  function SecondRange(b0: Byte): (Byte, Byte) {
    if b0 == 0xE0 then (0xA0, 0xBF)
    else if b0 == 0xED then (0x80, 0x9F)
    else if b0 == 0xF0 then (0x90, 0xBF)
    else if b0 == 0xF4 then (0x80, 0x8F)
    else (0x80, 0xBF)
  }

  predicate Tail(b: Byte) {
    0x80 <= b <= 0xBF
  }

  /** The length of the well-formed sequence that `s` starts with; 0 if it starts with none. */
  function RuneLen(s: seq<Byte>): (n: nat)
    ensures n <= |s| && n <= 4
  {
    if s == [] then 0
    else
      var n := Need(s[0]);
      if n == 0 || n > |s| then 0
      else if n >= 2 && !(SecondRange(s[0]).0 <= s[1] <= SecondRange(s[0]).1) then 0
      else if n >= 3 && !Tail(s[2]) then 0
      else if n >= 4 && !Tail(s[3]) then 0
      else n
  }

  /** `utf8.Valid`. */
  predicate Valid(s: seq<Byte>)
    decreases |s|
  {
    s == [] || (RuneLen(s) > 0 && Valid(s[RuneLen(s)..]))
  }

  /** `strings.ToValidUTF8` with an empty replacement: bytes that start no sequence are skipped one by one. */
  function ToValid(s: seq<Byte>): seq<Byte>
    decreases |s|
  {
    if s == [] then []
    else
      var n := RuneLen(s);
      if n == 0 then ToValid(s[1..]) else s[..n] + ToValid(s[n..])
  }

  // ---------- Scalar values ----------

  predicate Scalar(cp: int) {
    0 <= cp <= 0x10FFFF && !(0xD800 <= cp <= 0xDFFF)
  }

  function Encode(cp: int): (s: seq<Byte>)
    requires Scalar(cp)
    ensures 1 <= |s| <= 4
  {
    if cp < 0x80 then [cp]
    else if cp < 0x800 then [0xC0 + cp / 64, 0x80 + cp % 64]
    else if cp < 0x10000 then [0xE0 + cp / 4096, 0x80 + cp / 64 % 64, 0x80 + cp % 64]
    else [0xF0 + cp / 262144, 0x80 + cp / 4096 % 64, 0x80 + cp / 64 % 64, 0x80 + cp % 64]
  }

  ghost predicate Scalars(cps: seq<int>) {
    forall i :: 0 <= i < |cps| ==> Scalar(cps[i])
  }

  function EncodeAll(cps: seq<int>): seq<Byte>
    requires Scalars(cps)
  {
    if cps == [] then [] else Encode(cps[0]) + EncodeAll(cps[1..])
  }

  /** The scalar value of the sequence at the start. */
  function Decode(s: seq<Byte>): int
    requires RuneLen(s) > 0
  {
    match RuneLen(s)
    case 1 => s[0]
    case 2 => (s[0] as int - 0xC0) * 64 + (s[1] as int - 0x80)
    case 3 => (s[0] as int - 0xE0) * 4096 + (s[1] as int - 0x80) * 64 + (s[2] as int - 0x80)
    case _ => (s[0] as int - 0xF0) * 262144 + (s[1] as int - 0x80) * 4096
                + (s[2] as int - 0x80) * 64 + (s[3] as int - 0x80)
  }

  // ---------- The two definitions agree ----------

  /** An encoded scalar value, whatever follows, is recognised at its full length and decodes to itself. */
  lemma EncodedIsRune(cp: int, rest: seq<Byte>)
    requires Scalar(cp)
    ensures RuneLen(Encode(cp) + rest) == |Encode(cp)|
    ensures Decode(Encode(cp) + rest) == cp
  {
    if cp < 0x800 {
      ShortIsRune(cp, rest);
    } else if cp < 0x10000 {
      ThreeBytesAreRune(cp, rest);
    } else {
      FourBytesAreRune(cp, rest);
    }
  }

  lemma ShortIsRune(cp: int, rest: seq<Byte>)
    requires Scalar(cp) && cp < 0x800
    ensures RuneLen(Encode(cp) + rest) == |Encode(cp)| && Decode(Encode(cp) + rest) == cp
  {
  }

  lemma ThreeBytesAreRune(cp: int, rest: seq<Byte>)
    requires Scalar(cp) && 0x800 <= cp < 0x10000
    ensures RuneLen(Encode(cp) + rest) == |Encode(cp)| && Decode(Encode(cp) + rest) == cp
  {
    assert cp / 64 == cp / 4096 * 64 + cp / 64 % 64;
  }

  lemma FourBytesAreRune(cp: int, rest: seq<Byte>)
    requires Scalar(cp) && 0x10000 <= cp
    ensures RuneLen(Encode(cp) + rest) == |Encode(cp)| && Decode(Encode(cp) + rest) == cp
  {
    assert cp / 4096 == cp / 262144 * 64 + cp / 4096 % 64;
    assert cp / 64 == cp / 4096 * 64 + cp / 64 % 64;
  }

  /** A recognised sequence is the encoding of the scalar value it decodes to. */
  lemma RuneIsEncoded(s: seq<Byte>)
    requires RuneLen(s) > 0
    ensures Scalar(Decode(s)) && Encode(Decode(s)) == s[..RuneLen(s)]
  {
    if RuneLen(s) == 2 {
      Digits2(s[0] - 0xC0, s[1] - 0x80);
    } else if RuneLen(s) == 3 {
      RuneOfThree(s);
    } else if RuneLen(s) == 4 {
      RuneOfFour(s);
    }
  }

  lemma RuneOfThree(s: seq<Byte>)
    requires RuneLen(s) == 3
    ensures Scalar(Decode(s)) && Encode(Decode(s)) == s[..3]
  {
    Digits3(s[0] - 0xE0, s[1] - 0x80, s[2] - 0x80);
  }

  lemma RuneOfFour(s: seq<Byte>)
    requires RuneLen(s) == 4
    ensures Scalar(Decode(s)) && Encode(Decode(s)) == s[..4]
  {
    Digits4(s[0] - 0xF0, s[1] - 0x80, s[2] - 0x80, s[3] - 0x80);
  }

  lemma Digits2(a: int, b: int)
    requires 0 <= a && 0 <= b < 64
    ensures (a * 64 + b) / 64 == a && (a * 64 + b) % 64 == b
  {
  }

  lemma Digits3(a: int, b: int, c: int)
    requires 0 <= a && 0 <= b < 64 && 0 <= c < 64
    ensures var n := a * 4096 + b * 64 + c; n / 4096 == a && n / 64 % 64 == b && n % 64 == c
  {
    var n := a * 4096 + b * 64 + c;
    assert n / 64 == a * 64 + b;
  }

  lemma Digits4(a: int, b: int, c: int, e: int)
    requires 0 <= a && 0 <= b < 64 && 0 <= c < 64 && 0 <= e < 64
    ensures var n := a * 262144 + b * 4096 + c * 64 + e;
            n / 262144 == a && n / 4096 % 64 == b && n / 64 % 64 == c && n % 64 == e
  {
    var n := a * 262144 + b * 4096 + c * 64 + e;
    assert n / 64 == a * 4096 + b * 64 + c;
    assert n / 4096 == a * 64 + b;
  }

  lemma {:induction false} EncodingsAreValid(cps: seq<int>)
    requires Scalars(cps)
    ensures Valid(EncodeAll(cps))
    decreases |cps|
  {
    if cps == [] {
    } else {
      var rest := EncodeAll(cps[1..]);
      EncodedIsRune(cps[0], rest);
      assert EncodeAll(cps)[|Encode(cps[0])|..] == rest;
      EncodingsAreValid(cps[1..]);
    }
  }

  lemma {:induction false} ValidIsEncoding(s: seq<Byte>) returns (cps: seq<int>)
    requires Valid(s)
    ensures Scalars(cps) && s == EncodeAll(cps)
    decreases |s|
  {
    if s == [] {
      cps := [];
    } else {
      assert Scalar(Decode(s)) && Encode(Decode(s)) == s[..RuneLen(s)] by {
        RuneIsEncoded(s);
      }
      var more := ValidIsEncoding(s[RuneLen(s)..]);
      cps := [Decode(s)] + more;
      assert cps[1..] == more;
      assert s == s[..RuneLen(s)] + s[RuneLen(s)..];
    }
  }

  /** The byte patterns admit exactly the encodings of sequences of scalar values. */
  lemma ValidIffEncoding(s: seq<Byte>)
    ensures Valid(s) <==> exists cps :: Scalars(cps) && s == EncodeAll(cps)
  {
    if Valid(s) {
      var cps := ValidIsEncoding(s);
    }
    if cps :| Scalars(cps) && s == EncodeAll(cps) {
      EncodingsAreValid(cps);
    }
  }

  // ---------- Cutting ----------

  /** A sequence is recognised from its own bytes alone, and never from fewer. */
  lemma RuneOfPrefix(s: seq<Byte>, k: nat)
    requires RuneLen(s) > 0 && k <= |s|
    ensures RuneLen(s[..k]) == if k < RuneLen(s) then 0 else RuneLen(s)
  {
  }

  lemma {:induction false} TailsDisappear(s: seq<Byte>)
    requires forall i :: 0 <= i < |s| ==> Tail(s[i])
    ensures ToValid(s) == []
    decreases |s|
  {
    if s == [] {
    } else {
      TailsDisappear(s[1..]);
    }
  }

  /** What is left of a sequence cut short is dropped whole. */
  lemma CutRuneDisappears(s: seq<Byte>, k: nat)
    requires k < RuneLen(s)
    ensures ToValid(s[..k]) == []
  {
    if k > 0 {
      RuneOfPrefix(s, k);
      TailsDisappear(s[..k][1..]);
    }
  }

  /** Cutting at or after the first sequence cuts what follows it. */
  lemma CutBehindRune(s: seq<Byte>, k: nat)
    requires 0 < RuneLen(s) <= k <= |s|
    ensures var n := RuneLen(s);
            && ToValid(s[..k]) == s[..n] + ToValid(s[n..][..k - n])
            && (Valid(s[..k]) <==> Valid(s[n..][..k - n]))
  {
    var n := RuneLen(s);
    RuneOfPrefix(s, k);
    assert s[..k][n..] == s[n..][..k - n] && s[..k][..n] == s[..n];
  }

  lemma CutRuneIsInvalid(s: seq<Byte>, k: nat)
    requires 0 < k < RuneLen(s)
    ensures !Valid(s[..k])
  {
    RuneOfPrefix(s, k);
  }

  /** `r` is the longest valid prefix of `s` that fits in `max` bytes, and falls short by at most three. */
  ghost predicate LongestValidPrefix(r: seq<Byte>, s: seq<Byte>, max: nat)
    requires max <= |s|
  {
    && r <= s && Valid(r) && |r| <= max <= |r| + 3
    && forall k :: |r| < k <= max ==> !Valid(s[..k])
  }

  lemma NothingFits(s: seq<Byte>, max: nat)
    requires max < RuneLen(s)
    ensures LongestValidPrefix([], s, max)
  {
    forall k | 0 < k <= max
      ensures !Valid(s[..k])
    {
      CutRuneIsInvalid(s, k);
    }
  }

  lemma FirstRuneFits(s: seq<Byte>, max: nat, q: seq<Byte>)
    requires 0 < RuneLen(s) <= max <= |s|
    requires LongestValidPrefix(q, s[RuneLen(s)..], max - RuneLen(s))
    ensures LongestValidPrefix(s[..RuneLen(s)] + q, s, max)
  {
    var n := RuneLen(s);
    var r := s[..n] + q;
    assert r == s[..|r|] && s[n..][..|q|] == q;
    assert Valid(r) by {
      CutBehindRune(s, |r|);
    }
    forall k | |r| < k <= max
      ensures !Valid(s[..k])
    {
      CutBehindRune(s, k);
    }
  }

  /** Dropping invalid bytes from the first `max` bytes leaves the longest valid prefix that fits. */
  lemma {:induction false} CutIsLongestValidPrefix(s: seq<Byte>, max: nat)
    requires Valid(s) && max <= |s|
    ensures LongestValidPrefix(ToValid(s[..max]), s, max)
    decreases |s|
  {
    if max == 0 {
    } else {
      var n := RuneLen(s);
      if n > max {
        assert ToValid(s[..max]) == [] by {
          CutRuneDisappears(s, max);
        }
        NothingFits(s, max);
      } else {
        CutIsLongestValidPrefix(s[n..], max - n);
        assert ToValid(s[..max]) == s[..n] + ToValid(s[n..][..max - n]) by {
          CutBehindRune(s, max);
        }
        FirstRuneFits(s, max, ToValid(s[n..][..max - n]));
      }
    }
  }

  /** In terms of characters: the cut keeps as many whole leading characters as fit. */
  lemma {:induction false} CutKeepsWholeCharacters(cps: seq<int>, max: nat) returns (k: nat)
    requires Scalars(cps) && max <= |EncodeAll(cps)|
    ensures k <= |cps| && ToValid(EncodeAll(cps)[..max]) == EncodeAll(cps[..k])
    ensures |EncodeAll(cps[..k])| <= max
    ensures k < |cps| ==> |EncodeAll(cps[..k + 1])| > max
    decreases |cps|
  {
    k := 0;
    if cps == [] {
    } else {
      var s := EncodeAll(cps);
      var rest := EncodeAll(cps[1..]);
      var n := |Encode(cps[0])|;
      assert RuneLen(s) == n by {
        EncodedIsRune(cps[0], rest);
      }
      if n > max {
        assert ToValid(s[..max]) == [] by {
          CutRuneDisappears(s, max);
        }
        assert cps[..1][1..] == [];
        assert EncodeAll(cps[..1]) == Encode(cps[0]);
      } else {
        assert s == Encode(cps[0]) + rest && s[n..] == rest && s[..n] == Encode(cps[0]);
        assert ToValid(s[..max]) == Encode(cps[0]) + ToValid(rest[..max - n]) by {
          CutBehindRune(s, max);
        }
        var j := CutKeepsWholeCharacters(cps[1..], max - n);
        k := j + 1;
        assert cps[..k][1..] == cps[1..][..j];
        if k < |cps| {
          assert cps[..k + 1][1..] == cps[1..][..j + 1];
        }
      }
    }
  }
}
