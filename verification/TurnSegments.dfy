/** The segment ids under which a contributor's finished turns enter the transcript. */
module TurnSegments {
  import opened TranscriptLog

  function UtteranceId(socketId: string, sessionId: string, number: nat): string {
    socketId + ":" + sessionId + ":" + Decimal(number)
  }

  function Prefix(socketId: string, sessionId: string): string {
    "provider:" + socketId + ":" + sessionId + ":"
  }

  /** The id the log remembers for a turn. */
  function SegmentId(socketId: string, sessionId: string, number: nat): string {
    Truncated("provider:" + UtteranceId(socketId, sessionId, number))
  }

  lemma SegmentIdIsPrefixed(socketId: string, sessionId: string, number: nat)
    ensures SegmentId(socketId, sessionId, number) == Truncated(Prefix(socketId, sessionId) + Decimal(number))
  {
    hide Decimal, Truncated;
    assert "provider:" + UtteranceId(socketId, sessionId, number) == Prefix(socketId, sessionId) + Decimal(number);
  }

  lemma {:induction false} DecimalGrows(m: nat, n: nat)
    requires m <= n
    ensures 1 <= |Decimal(m)| <= |Decimal(n)|
    decreases n
  {
    if m >= 10 { DecimalGrows(m / 10, n / 10); }
    else if n >= 10 { DecimalGrows(0, n / 10); }
  }

  /** Some number up to `n` has exactly `length` digits, if `n` has at least that many. */
  lemma {:induction false} ShorterNumber(n: nat, length: nat) returns (k: nat)
    requires 2 <= length <= |Decimal(n)|
    ensures 10 <= k <= n && |Decimal(k)| == length
  {
    k := n;
    if |Decimal(n)| > length { k := ShorterNumber(n / 10, length); }
  }

  ghost predicate DistinctUpTo(socketId: string, sessionId: string, turns: nat) {
    forall m, n :: 1 <= m < n <= turns ==> SegmentId(socketId, sessionId, m) != SegmentId(socketId, sessionId, n)
  }

  lemma FittingIdsDiffer(prefix: string, m: nat, n: nat)
    requires m < n && |prefix| + |Decimal(n)| <= MAX_SEGMENT_ID
    ensures Truncated(prefix + Decimal(m)) != Truncated(prefix + Decimal(n))
  {
    DecimalGrows(m, n);
    if Decimal(m) == Decimal(n) { DecimalIsInjective(m, n); }
    hide Decimal;
    assert (prefix + Decimal(m))[|prefix|..] == Decimal(m);
    assert (prefix + Decimal(n))[|prefix|..] == Decimal(n);
  }

  lemma CutIdsCollide(prefix: string, turns: nat) returns (m: nat, n: nat)
    requires turns >= 2 && |prefix| + |Decimal(turns)| > MAX_SEGMENT_ID
    ensures 1 <= m < n <= turns && Truncated(prefix + Decimal(m)) == Truncated(prefix + Decimal(n))
  {
    if |prefix| >= MAX_SEGMENT_ID {
      m, n := 1, 2;
      assert (prefix + Decimal(1))[..MAX_SEGMENT_ID] == prefix[..MAX_SEGMENT_ID] == (prefix + Decimal(2))[..MAX_SEGMENT_ID];
    } else {
      n := ShorterNumber(turns, MAX_SEGMENT_ID + 1 - |prefix|);
      m := n / 10;
      var last := Decimal(n)[|Decimal(n)| - 1];
      assert Decimal(n) == Decimal(m) + [last];
      hide Decimal;
      assert (prefix + Decimal(n))[..MAX_SEGMENT_ID] == prefix + Decimal(m);
    }
  }

  /** The turns of one session are never mistaken for retries of each other, as long as the longest id survives the
      log's truncation; and with two turns or more, only as long as it does. */
  lemma TurnsAreNotRetriesExactlyWhenIdsFit(socketId: string, sessionId: string, turns: nat)
    ensures DistinctUpTo(socketId, sessionId, turns)
            <==> turns <= 1 || |Prefix(socketId, sessionId)| + |Decimal(turns)| <= MAX_SEGMENT_ID
  {
    hide SegmentId, Prefix, Decimal, Truncated;
    var prefix := Prefix(socketId, sessionId);
    if turns > 1 && |prefix| + |Decimal(turns)| > MAX_SEGMENT_ID {
      var m, n := CutIdsCollide(prefix, turns);
      SegmentIdIsPrefixed(socketId, sessionId, m);
      SegmentIdIsPrefixed(socketId, sessionId, n);
    } else {
      forall m, n | 1 <= m < n <= turns ensures SegmentId(socketId, sessionId, m) != SegmentId(socketId, sessionId, n) {
        SegmentIdIsPrefixed(socketId, sessionId, m);
        SegmentIdIsPrefixed(socketId, sessionId, n);
        DecimalGrows(n, turns);
        FittingIdsDiffer(prefix, m, n);
      }
    }
  }

  // ---------- Ids as the server makes them ----------

  const SOCKET_ID_LENGTH := 20
  const UUID_LENGTH := 36
  const DIGITS_LEFT := 33

  function Tens(digits: nat): nat { if digits == 0 then 1 else 10 * Tens(digits - 1) }

  lemma {:induction false} DigitsBelowTens(n: nat, digits: nat)
    requires n < Tens(digits) && digits > 0
    ensures |Decimal(n)| <= digits
  {
    if n >= 10 { DigitsBelowTens(n / 10, digits - 1); }
  }

  /** Socket ids of twenty characters and random UUIDs leave 33 digits for the number: no session gets that far. */
  lemma ServerIdsFit(socketId: string, sessionId: string, turns: nat)
    requires |socketId| == SOCKET_ID_LENGTH && |sessionId| == UUID_LENGTH && turns < Tens(DIGITS_LEFT)
    ensures DistinctUpTo(socketId, sessionId, turns)
  {
    assert |Prefix(socketId, sessionId)| + DIGITS_LEFT == MAX_SEGMENT_ID;
    hide Prefix, Tens, Decimal, DistinctUpTo;
    DigitsBelowTens(turns, DIGITS_LEFT);
    TurnsAreNotRetriesExactlyWhenIdsFit(socketId, sessionId, turns);
  }
}
