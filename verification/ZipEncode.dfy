/** Truncating a message until its compressed form fits: `zipEncodeStr` of
    `Utils/Utilities.py`, for any compression. */
module ZipEncode {

  type Bytes = seq<bv8>

  /** `base64.b64encode(zlib.compress(message, level))`, whatever it does. */
  type Encoder = (int, Bytes) -> Bytes

  const DEFAULT_LEVEL := 9

  /** The last for a loop that has not ended yet. */
  datatype Result = Encoded(bytes: Bytes) | ZeroDivisionError | StillRunning

  /** Python's `s[:end]` */
  function Slice(s: Bytes, end: int): (r: Bytes)
    ensures r <= s
  {
    if end >= |s| then s
    else if end >= 0 then s[..end]
    else if |s| + end >= 0 then s[..|s| + end]
    else []
  }

  /** The message the loop compresses after `n` rounds; `strLen` is the estimate it starts with. */
  function Candidate(message: Bytes, strLen: int, steps: int, indicator: Bytes, n: nat): Bytes {
    if n == 0 then Slice(message, strLen) + indicator
    else Slice(Candidate(message, strLen, steps, indicator, n - 1), -steps - |indicator|) + indicator
  }

  predicate Fits(enc: Encoder, maxLen: int, message: Bytes) {
    |enc(DEFAULT_LEVEL, message)| <= maxLen
  }

  /** The whole message is returned at once. */
  predicate Short(enc: Encoder, message: Bytes, maxLen: int, level: int) {
    |enc(level, message)| < maxLen || maxLen == -1
  }

  /** The compression rate cannot be computed, or is zero. */
  predicate NoRate(enc: Encoder, message: Bytes, level: int) {
    message == [] || enc(level, message) == []
  }

  ghost predicate SomeFits(enc: Encoder, message: Bytes, maxLen: int, steps: int, indicator: Bytes, strLen: int) {
    exists n: nat :: Fits(enc, maxLen, Candidate(message, strLen, steps, indicator, n))
  }

  /** `n` is the first round whose message fits. */
  ghost predicate FirstFit(enc: Encoder, message: Bytes, maxLen: int, steps: int, indicator: Bytes, strLen: int,
                           n: nat)
  {
    && Fits(enc, maxLen, Candidate(message, strLen, steps, indicator, n))
    && forall j: nat | j < n :: !Fits(enc, maxLen, Candidate(message, strLen, steps, indicator, j))
  }

  /** What is returned: the whole message if it is short, an exception without a rate, and
      otherwise the message of the first round `n` that fits. */
  ghost predicate Returns(enc: Encoder, message: Bytes, maxLen: int, level: int, steps: int, indicator: Bytes,
                          strLen: int, n: nat, r: Result)
  {
    if Short(enc, message, maxLen, level) then r == Encoded(enc(level, message))
    else if NoRate(enc, message, level) then r == ZeroDivisionError
    else FirstFit(enc, message, maxLen, steps, indicator, strLen, n)
         && r == Encoded(enc(DEFAULT_LEVEL, Candidate(message, strLen, steps, indicator, n)))
  }

  /** None of the rounds up to `rounds` fits. */
  ghost predicate NoneFits(enc: Encoder, message: Bytes, maxLen: int, steps: int, indicator: Bytes, strLen: int,
                           rounds: nat)
  {
    forall j: nat | j <= rounds :: !Fits(enc, maxLen, Candidate(message, strLen, steps, indicator, j))
  }

  /** Round `n` is the first with at most `maxLen` bytes at the default level, and they are `bytes`. */
  ghost predicate FirstWithin(enc: Encoder, message: Bytes, maxLen: int, steps: int, indicator: Bytes, strLen: int,
                              n: nat, bytes: Bytes)
  {
    && bytes == enc(9, Candidate(message, strLen, steps, indicator, n)) && |bytes| <= maxLen
    && forall j: nat | j < n :: |enc(9, Candidate(message, strLen, steps, indicator, j))| > maxLen
  }

  /** `zipEncodeStr`, watched for as many turns of its loop as `rounds` says. It is still
      running only if none of these rounds fits; the rounds are compressed with the default
      level, whatever level was given. */
  method ZipEncodeStr(enc: Encoder, message: Bytes, maxLen: int, level: int, steps: int, indicator: Bytes, strLen: int,
                      rounds: nat)
    returns (r: Result)
    ensures r.StillRunning? <==>
            && !Short(enc, message, maxLen, level) && !NoRate(enc, message, level)
            && NoneFits(enc, message, maxLen, steps, indicator, strLen, rounds)
    ensures |enc(level, message)| < maxLen || maxLen == -1 ==> r == Encoded(enc(level, message))
    ensures !(|enc(level, message)| < maxLen || maxLen == -1) && r.Encoded? ==>
              exists n: nat :: FirstWithin(enc, message, maxLen, steps, indicator, strLen, n, r.bytes)
    ensures r.StillRunning? ==>
              forall j: nat | j <= rounds :: |enc(9, Candidate(message, strLen, steps, indicator, j))| > maxLen
    ensures r.ZeroDivisionError? <==>
            !(|enc(level, message)| < maxLen || maxLen == -1) && (message == [] || enc(level, message) == [])
    ensures !r.StillRunning? ==> exists n: nat :: Returns(enc, message, maxLen, level, steps, indicator, strLen, n, r)
  {
    ghost var n: nat := 0;
    var encodedStr := enc(level, message);
    if |encodedStr| < maxLen || maxLen == -1 {
      assert Returns(enc, message, maxLen, level, steps, indicator, strLen, n, Encoded(encodedStr));
      return Encoded(encodedStr);
    }
    if |message| == 0 || |encodedStr| == 0 {
      assert Returns(enc, message, maxLen, level, steps, indicator, strLen, n, ZeroDivisionError);
      return ZeroDivisionError;
    }
    var text := Slice(message, strLen) + indicator;
    encodedStr := enc(DEFAULT_LEVEL, text);
    var left := rounds;
    while |encodedStr| > maxLen
      invariant n == rounds - left && left >= 0
      invariant text == Candidate(message, strLen, steps, indicator, n) && encodedStr == enc(DEFAULT_LEVEL, text)
      invariant forall j: nat | j < n :: !Fits(enc, maxLen, Candidate(message, strLen, steps, indicator, j))
      decreases left
    {
      if left == 0 {
        return StillRunning;
      }
      text := Slice(text, -steps - |indicator|) + indicator;
      encodedStr := enc(DEFAULT_LEVEL, text);
      n, left := n + 1, left - 1;
    }
    r := Encoded(encodedStr);
    assert Returns(enc, message, maxLen, level, steps, indicator, strLen, n, r);
    assert Fits(enc, maxLen, Candidate(message, strLen, steps, indicator, n));
    assert FirstWithin(enc, message, maxLen, steps, indicator, strLen, n, encodedStr);
  }

  /** What is returned can differ from the same message compressed with the level asked for: here
      with an encoder that writes a single byte at the default level and three at any other. */
  lemma LevelIsIgnored() returns (enc: Encoder, level: int, message: Bytes, strLen: int)
    ensures level != 9 && forall message :: |enc(9, message)| == 1 && |enc(level, message)| == 3
    ensures forall n: nat, bytes | Returns(enc, message, 2, level, 100, [], strLen, n, Encoded(bytes)) ::
              bytes != enc(level, Candidate(message, strLen, 100, [], n))
    ensures exists n: nat, bytes :: Returns(enc, message, 2, level, 100, [], strLen, n, Encoded(bytes))
  {
    enc := (level: int, message: Bytes) => if level == DEFAULT_LEVEL then [7] else [7, 7, 7];
    level, message, strLen := 1, [7], 1;
    assert Fits(enc, 2, Candidate(message, strLen, 100, [], 0));
    assert !Short(enc, message, 2, level) && !NoRate(enc, message, level);
    assert Returns(enc, message, 2, level, 100, [], strLen, 0, Encoded([7]));
  }

  // ----- what the rounds try -----

  /** How much of the message is left after `n` rounds. */
  function Kept(message: Bytes, strLen: int, steps: int, n: nat): (k: int)
    requires steps > 0
    ensures 0 <= k <= |message|
  {
    if n == 0 then |Slice(message, strLen)|
    else if Kept(message, strLen, steps, n - 1) >= steps then Kept(message, strLen, steps, n - 1) - steps else 0
  }

  /** With a positive step, each round is a prefix of the message and the indicator, shorter
      by the step than the round before, down to the indicator alone. */
  lemma {:induction false} CandidateIsPrefix(message: Bytes, strLen: int, steps: int, indicator: Bytes, n: nat)
    requires steps > 0
    ensures Candidate(message, strLen, steps, indicator, n) == message[..Kept(message, strLen, steps, n)] + indicator
    decreases n
  {
    if n == 0 {
      assert Slice(message, strLen) == message[..|Slice(message, strLen)|];
    } else {
      CandidateIsPrefix(message, strLen, steps, indicator, n - 1);
      var k, k' := Kept(message, strLen, steps, n - 1), Kept(message, strLen, steps, n);
      var before := message[..k] + indicator;
      assert Slice(before, -steps - |indicator|) == before[..k'];
      assert before[..k'] == message[..k'];
    }
  }

  /** How many bytes of the message the estimate keeps: a negative one counts from the end. */
  function Estimated(message: Bytes, strLen: int): int {
    if strLen >= |message| then |message|
    else if strLen >= 0 then strLen
    else if strLen + |message| >= 0 then strLen + |message|
    else 0
  }

  /** Each round drops `steps` bytes more, as long as there are so many. */
  lemma {:induction false} RoundIs(message: Bytes, strLen: int, steps: int, indicator: Bytes, n: nat)
    requires steps > 0
    ensures var k := Estimated(message, strLen) - n * steps;
            Candidate(message, strLen, steps, indicator, n) == (if k >= 0 then message[..k] else []) + indicator
  {
    CandidateIsPrefix(message, strLen, steps, indicator, n);
    KeptIs(message, strLen, steps, n);
    assert message[..0] == [];
  }

  lemma {:induction false} KeptIs(message: Bytes, strLen: int, steps: int, n: nat)
    requires steps > 0
    ensures var k := Estimated(message, strLen) - n * steps;
            Kept(message, strLen, steps, n) == if k >= 0 then k else 0
    decreases n
  {
    if n > 0 {
      KeptIs(message, strLen, steps, n - 1);
      assert n * steps == (n - 1) * steps + steps;
    }
  }

  lemma {:induction false} KeptEnds(message: Bytes, strLen: int, steps: int, n: nat)
    requires steps > 0
    ensures Kept(message, strLen, steps, n) <= if n >= |message| then 0 else |message| - n
    decreases n
  {
    if n > 0 { KeptEnds(message, strLen, steps, n - 1); }
  }

  /** With a positive step and an indicator that fits by itself the loop always ends. */
  lemma IndicatorFits(enc: Encoder, message: Bytes, maxLen: int, steps: int, indicator: Bytes, strLen: int)
    requires steps > 0 && Fits(enc, maxLen, indicator)
    ensures SomeFits(enc, message, maxLen, steps, indicator, strLen)
  {
    var n := |message|;
    KeptEnds(message, strLen, steps, n);
    CandidateIsPrefix(message, strLen, steps, indicator, n);
    assert message[..0] + indicator == indicator;
    assert Fits(enc, maxLen, Candidate(message, strLen, steps, indicator, n));
  }

  /** With a positive step, the loop ends if, and only if, it ends within as many rounds as the
      message has bytes: the indicator alone is tried again and again after that. */
  lemma EndsIff(enc: Encoder, message: Bytes, maxLen: int, steps: int, indicator: Bytes, strLen: int)
    requires steps > 0
    ensures SomeFits(enc, message, maxLen, steps, indicator, strLen) <==>
            exists n: nat :: n <= |message| && Fits(enc, maxLen, message[..Kept(message, strLen, steps, n)] + indicator)
  {
    forall n: nat
      ensures Candidate(message, strLen, steps, indicator, n) ==
              message[..Kept(message, strLen, steps, n)] + indicator
    {
      CandidateIsPrefix(message, strLen, steps, indicator, n);
    }
    if n: nat :| Fits(enc, maxLen, Candidate(message, strLen, steps, indicator, n)) {
      var k := if n <= |message| then n else |message|;
      KeptEnds(message, strLen, steps, n);
      KeptEnds(message, strLen, steps, |message|);
      assert Fits(enc, maxLen, message[..Kept(message, strLen, steps, k)] + indicator);
    }
  }

  /** What comes back fits a limit that is not negative, and encodes the whole message, or a
      prefix of it followed by the indicator. */
  lemma EncodesPrefix(enc: Encoder, message: Bytes, maxLen: nat, level: int, steps: int, indicator: Bytes, strLen: int,
                      n: nat, bytes: Bytes)
    requires steps > 0 && Returns(enc, message, maxLen, level, steps, indicator, strLen, n, Encoded(bytes))
    ensures |bytes| <= maxLen
    ensures || bytes == enc(level, message)
            || exists k :: 0 <= k <= |message| && bytes == enc(DEFAULT_LEVEL, message[..k] + indicator)
  {
    CandidateIsPrefix(message, strLen, steps, indicator, n);
  }
}
