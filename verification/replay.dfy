/**
The replay cache of server/replay.py: a nonce is accepted when its timestamp is within
thirty seconds of the clock and the nonce is not in the table; a purge drops the entries
older than five minutes.
*/
module Replay {
  import opened Crypto

  type Nonce = Bytes
  type Table = map<Nonce, int>

  const NONCE_BYTES := 16
  const TIMESTAMP_WINDOW_SECONDS := 30
  const NONCE_RETENTION_SECONDS := 300

  /** The largest backward step of the clock that the two constants absorb. */
  const SLACK_SECONDS: nat := NONCE_RETENTION_SECONDS - 2 * TIMESTAMP_WINDOW_SECONDS

  predicate Fresh(timestamp: int, now: int) {
    -TIMESTAMP_WINDOW_SECONDS <= now - timestamp <= TIMESTAMP_WINDOW_SECONDS
  }

  predicate Accepts(seen: Table, nonce: Nonce, timestamp: int, now: int) {
    Width(nonce) == NONCE_BYTES && Fresh(timestamp, now) && nonce !in seen
  }

  function Record(seen: Table, nonce: Nonce, timestamp: int, now: int): Table {
    if Accepts(seen, nonce, timestamp, now) then seen[nonce := now] else seen
  }

  function Purge(seen: Table, now: int): Table {
    map n | n in seen && seen[n] >= now - NONCE_RETENTION_SECONDS :: seen[n]
  }

  // ---------- Runs ----------

  datatype CacheOp =
    | Check(nonce: Nonce, timestamp: int, now: int)
    | Pass(now: int)

  function TableAfter(ops: seq<CacheOp>): Table {
    if ops == [] then map[] else
      var before := TableAfter(ops[..|ops| - 1]);
      match ops[|ops| - 1]
      case Check(nonce, timestamp, now) => Record(before, nonce, timestamp, now)
      case Pass(now) => Purge(before, now)
  }

  /** The table of a server that never purges. */
  function FullTableAfter(ops: seq<CacheOp>): Table {
    if ops == [] then map[] else
      var before := FullTableAfter(ops[..|ops| - 1]);
      match ops[|ops| - 1]
      case Check(nonce, timestamp, now) => Record(before, nonce, timestamp, now)
      case Pass(_) => before
  }

  predicate Accepted(ops: seq<CacheOp>, i: nat)
    requires i < |ops|
  {
    ops[i].Check? && Accepts(TableAfter(ops[..i]), ops[i].nonce, ops[i].timestamp, ops[i].now)
  }

  predicate AcceptedUnpurged(ops: seq<CacheOp>, i: nat)
    requires i < |ops|
  {
    ops[i].Check? && Accepts(FullTableAfter(ops[..i]), ops[i].nonce, ops[i].timestamp, ops[i].now)
  }

  ghost predicate StepsBackAtMost(ops: seq<CacheOp>, d: nat) {
    forall i, j :: 0 <= i < j < |ops| ==> ops[j].now >= ops[i].now - d
  }

  ghost predicate AtMostOnce(ops: seq<CacheOp>) {
    forall i, j :: 0 <= i < j < |ops| && Accepted(ops, i) && Accepted(ops, j) ==>
      ops[i].nonce != ops[j].nonce || ops[i].timestamp != ops[j].timestamp
  }

  ghost predicate OneTimestampPerNonce(ops: seq<CacheOp>) {
    forall i, j :: 0 <= i < j < |ops| && ops[i].Check? && ops[j].Check? && ops[i].nonce == ops[j].nonce ==>
      ops[i].timestamp == ops[j].timestamp
  }

  ghost predicate SameAnswers(ops: seq<CacheOp>) {
    forall i :: 0 <= i < |ops| ==> Accepted(ops, i) == AcceptedUnpurged(ops, i)
  }

  // ---------- At most once ----------

  /** An accepted nonce stays in the table until a purge more than five minutes later. */
  lemma {:induction false} Retained(ops: seq<CacheOp>, i: nat, m: nat)
    requires i < m <= |ops| && Accepted(ops, i)
    requires forall k :: i < k < m && ops[k].Pass? ==> ops[k].now <= ops[i].now + NONCE_RETENTION_SECONDS
    ensures ops[i].nonce in TableAfter(ops[..m]) && TableAfter(ops[..m])[ops[i].nonce] == ops[i].now
  {
    assert ops[..m][..m - 1] == ops[..m - 1];
    if i + 1 < m {
      Retained(ops, i, m - 1);
    }
  }

  lemma AcceptedOnce(ops: seq<CacheOp>, i: nat, j: nat)
    requires StepsBackAtMost(ops, SLACK_SECONDS)
    requires i < j < |ops| && Accepted(ops, i) && Accepted(ops, j)
    ensures ops[i].nonce != ops[j].nonce || ops[i].timestamp != ops[j].timestamp
  {
    if ops[i].nonce == ops[j].nonce && ops[i].timestamp == ops[j].timestamp {
      forall k | i < k < j && ops[k].Pass?
        ensures ops[k].now <= ops[i].now + NONCE_RETENTION_SECONDS
      {
        assert ops[j].now >= ops[k].now - SLACK_SECONDS;
      }
      Retained(ops, i, j);
    }
  }

  // ---------- The purged table answers like the full one ----------

  /** p is a purged copy of f, whose entries were accepted with the timestamps of stamp;
      what p lost was recorded more than five minutes before the latest reading, high. */
  ghost predicate Shadows(p: Table, f: Table, stamp: Nonce -> int, high: int) {
    && (forall n | n in p :: n in f && p[n] == f[n])
    && (forall n | n in f :: Fresh(stamp(n), f[n]))
    && (forall n | n in f && n !in p :: f[n] + NONCE_RETENTION_SECONDS < high)
  }

  function Max(a: int, b: int): int { if a < b then b else a }

  lemma ShadowsRecord(p: Table, f: Table, stamp: Nonce -> int, high: int, nonce: Nonce, now: int)
    requires Shadows(p, f, stamp, high)
    requires now >= high - SLACK_SECONDS
    ensures Accepts(p, nonce, stamp(nonce), now) == Accepts(f, nonce, stamp(nonce), now)
    ensures Shadows(Record(p, nonce, stamp(nonce), now), Record(f, nonce, stamp(nonce), now), stamp, Max(high, now))
  {
  }

  lemma ShadowsPurge(p: Table, f: Table, stamp: Nonce -> int, high: int, now: int)
    requires Shadows(p, f, stamp, high)
    ensures Shadows(Purge(p, now), f, stamp, Max(high, now))
  {
  }

  function Latest(ops: seq<CacheOp>): int
    requires ops != []
  {
    if |ops| == 1 then ops[0].now else Max(Latest(ops[..|ops| - 1]), ops[|ops| - 1].now)
  }

  lemma {:induction false} LatestIsReached(ops: seq<CacheOp>) returns (k: nat)
    requires ops != []
    ensures k < |ops| && ops[k].now == Latest(ops)
  {
    if |ops| == 1 || ops[|ops| - 1].now == Latest(ops) {
      k := |ops| - 1;
    } else {
      k := LatestIsReached(ops[..|ops| - 1]);
    }
  }

  ghost predicate Stamped(ops: seq<CacheOp>, stamp: Nonce -> int) {
    forall i :: 0 <= i < |ops| && ops[i].Check? ==> ops[i].timestamp == stamp(ops[i].nonce)
  }

  lemma {:induction false} TablesShadow(ops: seq<CacheOp>, m: nat, stamp: Nonce -> int)
    requires 0 < m <= |ops| && StepsBackAtMost(ops, SLACK_SECONDS) && Stamped(ops, stamp)
    ensures Shadows(TableAfter(ops[..m]), FullTableAfter(ops[..m]), stamp, Latest(ops[..m]))
  {
    var op := ops[m - 1];
    assert ops[..m][..m - 1] == ops[..m - 1];
    var p, f := TableAfter(ops[..m - 1]), FullTableAfter(ops[..m - 1]);
    var high := op.now;
    if m > 1 {
      TablesShadow(ops, m - 1, stamp);
      high := Latest(ops[..m - 1]);
      var k := LatestIsReached(ops[..m - 1]);
      assert ops[m - 1].now >= ops[k].now - SLACK_SECONDS;
    }
    if op.Check? {
      ShadowsRecord(p, f, stamp, high, op.nonce, op.now);
    } else {
      ShadowsPurge(p, f, stamp, high, op.now);
    }
  }

  ghost predicate Carries(ops: seq<CacheOp>, n: Nonce, t: int) {
    exists i :: 0 <= i < |ops| && ops[i].Check? && ops[i].nonce == n && ops[i].timestamp == t
  }

  lemma StampExists(ops: seq<CacheOp>) returns (stamp: Nonce -> int)
    requires OneTimestampPerNonce(ops)
    ensures Stamped(ops, stamp)
  {
    stamp := n => if exists t :: Carries(ops, n, t) then var t :| Carries(ops, n, t); t else 0;
    forall i | 0 <= i < |ops| && ops[i].Check?
      ensures ops[i].timestamp == stamp(ops[i].nonce)
    {
      assert Carries(ops, ops[i].nonce, ops[i].timestamp);
    }
  }

  lemma PurgedAnswersAgree(ops: seq<CacheOp>)
    requires StepsBackAtMost(ops, SLACK_SECONDS) && OneTimestampPerNonce(ops)
    ensures SameAnswers(ops)
  {
    var stamp := StampExists(ops);
    forall i | 0 <= i < |ops|
      ensures Accepted(ops, i) == AcceptedUnpurged(ops, i)
    {
      if i > 0 && ops[i].Check? {
        TablesShadow(ops, i, stamp);
        var k := LatestIsReached(ops[..i]);
        assert ops[i].now >= ops[k].now - SLACK_SECONDS;
        ShadowsRecord(TableAfter(ops[..i]), FullTableAfter(ops[..i]), stamp, Latest(ops[..i]), ops[i].nonce, ops[i].now);
      }
    }
  }

  // ---------- Both bounds are tight ----------

  const ZeroNonce: Nonce := seq(NONCE_BYTES, _ => Byte(0))

  /** One message accepted, purged, and accepted again after the clock stepped back 241 seconds. */
  const Regression: seq<CacheOp> := [Check(ZeroNonce, 30, 0), Pass(301), Check(ZeroNonce, 30, 60)]

  lemma {:induction false} WidthOfPlain(b: Bytes)
    requires forall a | a in b :: a.Byte?
    ensures Width(b) == |b|
  {
    if b != [] {
      WidthOfPlain(b[1..]);
    }
  }

  lemma RegressionAcceptsTwice()
    ensures StepsBackAtMost(Regression, SLACK_SECONDS + 1) && OneTimestampPerNonce(Regression)
    ensures Accepted(Regression, 0) && Accepted(Regression, 2) && !AcceptedUnpurged(Regression, 2)
  {
    WidthOfPlain(ZeroNonce);
    assert Regression[..0] == [];
    assert Regression[..1] == [Regression[0]] && Regression[..1][..0] == [];
    assert Regression[..2] == [Regression[0], Regression[1]] && Regression[..2][..1] == Regression[..1];
    assert TableAfter(Regression[..1]) == map[ZeroNonce := 0];
    assert TableAfter(Regression[..2]) == map[];
    assert FullTableAfter(Regression[..2]) == FullTableAfter(Regression[..1]) == map[ZeroNonce := 0];
  }

  /** No (nonce, timestamp) pair is accepted twice in any run exactly when the clock never steps
      back by more than 240 seconds. */
  lemma AtMostOnceBound(d: nat)
    ensures (forall ops: seq<CacheOp> | StepsBackAtMost(ops, d) :: AtMostOnce(ops)) <==> d <= 240
  {
    if d <= SLACK_SECONDS {
      forall ops: seq<CacheOp> | StepsBackAtMost(ops, d)
        ensures AtMostOnce(ops)
      {
        assert StepsBackAtMost(ops, SLACK_SECONDS);
        forall i: nat, j: nat | i < j < |ops| && Accepted(ops, i) && Accepted(ops, j)
          ensures ops[i].nonce != ops[j].nonce || ops[i].timestamp != ops[j].timestamp
        {
          AcceptedOnce(ops, i, j);
        }
      }
    } else {
      RegressionAcceptsTwice();
      assert StepsBackAtMost(Regression, d);
    }
  }

  /** With one timestamp per nonce, purging never changes an answer exactly under the same bound. */
  lemma PurgedRefinesFullBound(d: nat)
    ensures (forall ops: seq<CacheOp> | StepsBackAtMost(ops, d) && OneTimestampPerNonce(ops) :: SameAnswers(ops))
            <==> d <= 240
  {
    if d <= SLACK_SECONDS {
      forall ops: seq<CacheOp> | StepsBackAtMost(ops, d) && OneTimestampPerNonce(ops)
        ensures SameAnswers(ops)
      {
        assert StepsBackAtMost(ops, SLACK_SECONDS);
        PurgedAnswersAgree(ops);
      }
    } else {
      RegressionAcceptsTwice();
      assert StepsBackAtMost(Regression, d);
      assert Accepted(Regression, 2) != AcceptedUnpurged(Regression, 2);
    }
  }
}
