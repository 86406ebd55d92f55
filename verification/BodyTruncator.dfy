/** `internal/log/service/body_truncator.go`: bodies cut to size for the log. Strings are their bytes. */
module BodyTruncator {
  import opened Utf8

  const MAX_BODY_BYTES: nat := 2048

  function Ascii(t: string): (s: seq<Byte>)
    requires forall i :: 0 <= i < |t| ==> t[i] < 128 as char
    ensures |s| == |t| && forall i :: 0 <= i < |s| ==> s[i] == t[i] as int < 0x80
  {
    seq(|t|, i requires 0 <= i < |t| => t[i] as int)
  }

  const BINARY_DATA: seq<Byte> := Ascii("[binary data]")

  datatype TruncateResult = TruncateResult(body: seq<Byte>, truncated: bool, contentLength: int)

  function TruncateAtRuneBoundary(b: seq<Byte>, maxLen: nat): seq<Byte> {
    if |b| <= maxLen then b else ToValid(b[..maxLen])
  }

  function TruncateBody(body: seq<Byte>): TruncateResult {
    if |body| == 0 then TruncateResult([], false, 0)
    else if !Valid(body) then TruncateResult(BINARY_DATA, false, |body|)
    else if |body| <= MAX_BODY_BYTES then TruncateResult(body, false, |body|)
    else TruncateResult(TruncateAtRuneBoundary(body, MAX_BODY_BYTES), true, |body|)
  }

  /** The length reported is that of the whole body, cut or replaced or not. */
  lemma LengthIsOfWholeBody(body: seq<Byte>)
    ensures TruncateBody(body).contentLength == |body|
  {
  }

  /** A valid body of at most 2048 bytes is logged as it is, an invalid one as the placeholder. */
  lemma ShortOrBinaryBody(body: seq<Byte>)
    ensures Valid(body) && |body| <= 2048 ==> TruncateBody(body) == TruncateResult(body, false, |body|)
    ensures !Valid(body) ==> TruncateBody(body) == TruncateResult(Ascii("[binary data]"), false, |body|)
  {
  }

  /**
   A long valid body is cut to its longest valid prefix of at most 2048 bytes, which loses at most
   three bytes below that; and it is marked as cut, with its original length.
   */
  lemma LongBodyIsCut(body: seq<Byte>)
    requires Valid(body) && |body| > MAX_BODY_BYTES
    ensures var r := TruncateBody(body);
            && r.truncated && r.contentLength == |body|
            && LongestValidPrefix(r.body, body, 2048) && 2045 <= |r.body| <= 2048
  {
    CutIsLongestValidPrefix(body, MAX_BODY_BYTES);
  }

  /** No character is split: the cut keeps the leading characters that fit, and no fewer. */
  lemma NoCharacterIsSplit(cps: seq<int>)
    requires Scalars(cps) && |EncodeAll(cps)| > MAX_BODY_BYTES
    ensures exists k :: 0 <= k < |cps|
              && TruncateBody(EncodeAll(cps)).body == EncodeAll(cps[..k])
              && |EncodeAll(cps[..k])| <= MAX_BODY_BYTES < |EncodeAll(cps[..k + 1])|
  {
    EncodingsAreValid(cps);
    var k := CutKeepsWholeCharacters(cps, MAX_BODY_BYTES);
    assert cps[..|cps|] == cps;
  }

  lemma {:induction false} AsciiIsValid(s: seq<Byte>)
    requires forall i :: 0 <= i < |s| ==> s[i] < 0x80
    ensures Valid(s)
    decreases |s|
  {
    if s == [] {
    } else {
      AsciiIsValid(s[1..]);
    }
  }

  lemma PlaceholderIsValid()
    ensures Valid(BINARY_DATA) && |BINARY_DATA| == 13
  {
    AsciiIsValid(BINARY_DATA);
  }

  /** Every body's log text is valid UTF-8 of at most 2048 bytes, and truncating it again changes nothing. */
  lemma TruncatingTwiceIsTruncatingOnce(body: seq<Byte>)
    ensures var r := TruncateBody(body).body;
            && Valid(r) && |r| <= MAX_BODY_BYTES
            && TruncateBody(r) == TruncateResult(r, false, |r|)
  {
    PlaceholderIsValid();
    if Valid(body) && |body| > MAX_BODY_BYTES {
      LongBodyIsCut(body);
    }
  }

  /** Only a body that is valid UTF-8 and over 2048 bytes is marked as cut. */
  lemma {:induction false} CutIffLongAndValid(body: seq<Byte>)
    ensures TruncateBody(body).truncated <==> Valid(body) && |body| > MAX_BODY_BYTES
    ensures body != [] && !Valid(body) <==> TruncateBody(body).body == BINARY_DATA && body != BINARY_DATA
  {
    PlaceholderIsValid();
    if Valid(body) && |body| > MAX_BODY_BYTES {
      LongBodyIsCut(body);
    }
  }
}
