/**
 * The progress-counting reader wrapped around each part body: every read that
 * moves the stream past what was already reported calls `onDelta` with the new
 * bytes, and a seek moves the stream position (the SDK rewinds a body when it
 * retries a request).
 *
 * `curPos` is the position in the stream and `reported` the number of bytes
 * handed to `onDelta` so far, as seen by the meter. The pure functions below
 * give one step of the meter; `ReadSeekCloserProgress` is the object that the
 * uploader threads through a part upload.
 */
module Progress {
  import opened Wrappers

  datatype Meter = Meter(curPos: int, reported: int)

  /** One call on the wrapper: a read that delivered n bytes, or a seek to a new position (None: the seek failed). */
  datatype Op = ReadOp(n: nat) | SeekOp(newPos: Option<nat>)

  /**
   * Read: the position moves by n; when it is now past what was reported, the
   * difference is reported (one onDelta call) and becomes part of `reported`.
   */
  function OnRead(m: Meter, n: nat): (r: (Meter, seq<int>))
    ensures r.0.curPos == m.curPos + n
    ensures |r.1| <= 1 && forall d :: d in r.1 ==> d > 0
    ensures r.1 == [] ==> r.0.reported == m.reported
    ensures r.1 != [] ==> r.0.reported == r.0.curPos && r.1[0] == r.0.curPos - m.reported
    ensures r.1 != [] <==> n > 0 && m.curPos + n > m.reported
    ensures n > 0 ==> r.0.reported == if m.curPos + n > m.reported then m.curPos + n else m.reported
  {
    if n > 0 && m.curPos + n - m.reported > 0 then
      (Meter(m.curPos + n, m.curPos + n), [m.curPos + n - m.reported])
    else
      (Meter(m.curPos + n, m.reported), [])
  }

  /** Seek as written: the position moves, and `reported` drops to it when the seek went back. */
  function OnSeekAsWritten(m: Meter, newPos: nat): (r: Meter)
    ensures r.curPos == newPos
    ensures r.reported == if newPos < m.reported then newPos else m.reported
  {
    var reported := if newPos < m.reported then newPos else m.reported;
    Meter(newPos, reported)
  }

  /** Seek as evidently intended: the position moves and `reported` stays a high-water mark. */
  function OnSeek(m: Meter, newPos: nat): (r: Meter)
    ensures r.curPos == newPos && r.reported == m.reported
  {
    Meter(newPos, m.reported)
  }

  /** The meter and the onDelta calls after a sequence of operations, with Seek as written. */
  function RunAsWritten(ops: seq<Op>): (Meter, seq<int>) {
    if |ops| == 0 then (Meter(0, 0), [])
    else
      var (m, ds) := RunAsWritten(ops[..|ops| - 1]);
      match ops[|ops| - 1]
      case ReadOp(n) => var (m', d) := OnRead(m, n); (m', ds + d)
      case SeekOp(p) => if p.None? then (m, ds) else (OnSeekAsWritten(m, p.value), ds)
  }

  /** The same with the corrected Seek. */
  function Run(ops: seq<Op>): (Meter, seq<int>) {
    if |ops| == 0 then (Meter(0, 0), [])
    else
      var (m, ds) := Run(ops[..|ops| - 1]);
      match ops[|ops| - 1]
      case ReadOp(n) => var (m', d) := OnRead(m, n); (m', ds + d)
      case SeekOp(p) => if p.None? then (m, ds) else (OnSeek(m, p.value), ds)
  }

  function Sum(ds: seq<int>): int {
    if |ds| == 0 then 0 else Sum(ds[..|ds| - 1]) + ds[|ds| - 1]
  }

  lemma SumAppend(a: seq<int>, b: seq<int>)
    requires |b| <= 1
    ensures Sum(a + b) == Sum(a) + Sum(b)
  {
    if |b| == 1 {
      assert (a + b)[..|a + b| - 1] == a;
    } else {
      assert a + b == a;
    }
  }

  /** The stream position after a sequence of operations; reads advance it, successful seeks set it. */
  function Position(ops: seq<Op>): nat {
    if |ops| == 0 then 0
    else
      match ops[|ops| - 1]
      case ReadOp(n) => Position(ops[..|ops| - 1]) + n
      case SeekOp(p) => if p.None? then Position(ops[..|ops| - 1]) else p.value
  }

  /** The furthest position any read has carried the stream to (0 before the first read). */
  function Furthest(ops: seq<Op>): nat {
    if |ops| == 0 then 0
    else
      var before := Furthest(ops[..|ops| - 1]);
      match ops[|ops| - 1]
      case ReadOp(n) => if n > 0 && Position(ops) > before then Position(ops) else before
      case SeekOp(_) => before
  }

  /**
   * With the corrected Seek every byte position is reported at most once: the
   * onDelta calls add up to the furthest position the reads reached, however
   * often the body was rewound and read again.
   */
  lemma {:induction false} RunCountsEachByteOnce(ops: seq<Op>)
    ensures Run(ops).0.curPos == Position(ops)
    ensures Run(ops).0.reported == Furthest(ops)
    ensures Sum(Run(ops).1) == Furthest(ops)
  {
    if |ops| > 0 {
      var init := ops[..|ops| - 1];
      RunCountsEachByteOnce(init);
      var (m, ds) := Run(init);
      match ops[|ops| - 1]
      case ReadOp(n) =>
        SumAppend(ds, OnRead(m, n).1);
      case SeekOp(p) =>
    }
  }

  /** As written, the reports never fall short of the furthest position read, but they can exceed it. */
  lemma {:induction false} RunAsWrittenNeverUnderCounts(ops: seq<Op>)
    ensures RunAsWritten(ops).0.curPos == Position(ops)
    ensures RunAsWritten(ops).0.reported <= RunAsWritten(ops).0.curPos
    ensures Sum(RunAsWritten(ops).1) >= Furthest(ops)
    ensures Sum(RunAsWritten(ops).1) >= RunAsWritten(ops).0.reported
  {
    if |ops| > 0 {
      var init := ops[..|ops| - 1];
      RunAsWrittenNeverUnderCounts(init);
      var (m, ds) := RunAsWritten(init);
      match ops[|ops| - 1]
      case ReadOp(n) =>
        SumAppend(ds, OnRead(m, n).1);
      case SeekOp(p) =>
    }
  }

  predicate NoSeek(ops: seq<Op>) {
    forall i :: 0 <= i < |ops| ==> ops[i].ReadOp?
  }

  function BytesRead(ops: seq<Op>): nat {
    if |ops| == 0 then 0
    else BytesRead(ops[..|ops| - 1]) + (if ops[|ops| - 1].ReadOp? then ops[|ops| - 1].n else 0)
  }

  /** Without seeks, the code's onDelta calls add up to exactly the bytes read, and `reported` keeps up with the position. */
  lemma {:induction false} ReadsOnlyReportEveryByte(ops: seq<Op>)
    requires NoSeek(ops)
    ensures Sum(RunAsWritten(ops).1) == BytesRead(ops)
    ensures RunAsWritten(ops).0 == Meter(BytesRead(ops), BytesRead(ops))
  {
    if |ops| > 0 {
      var init := ops[..|ops| - 1];
      ReadsOnlyReportEveryByte(init);
      var (m, ds) := RunAsWritten(init);
      SumAppend(ds, OnRead(m, ops[|ops| - 1].n).1);
    }
  }

  /**
   * The retry the wrapper exists for: 10 bytes read, the body rewound to 0 and
   * the same 10 bytes read again. Seek as written drops `reported` to 0, so the
   * second read reports the 10 bytes again: 20 bytes reported for 10.
   */
  lemma SeekAsWrittenRecountsRetriedBytes()
    ensures Furthest([ReadOp(10), SeekOp(Some(0)), ReadOp(10)]) == 10
    ensures Sum(RunAsWritten([ReadOp(10), SeekOp(Some(0)), ReadOp(10)]).1) == 20
    ensures Sum(Run([ReadOp(10), SeekOp(Some(0)), ReadOp(10)]).1) == 10
  {
    var ops := [ReadOp(10), SeekOp(Some(0)), ReadOp(10)];
    var one := [ReadOp(10)];
    var two := [ReadOp(10), SeekOp(Some(0))];
    assert one[..0] == [] && two[..1] == one && ops[..2] == two;
    var none: seq<int> := [];
    assert none + [10] == [10];
    assert RunAsWritten(one[..0]) == (Meter(0, 0), none);
    assert OnRead(Meter(0, 0), 10) == (Meter(10, 10), [10]);
    assert RunAsWritten(one) == (Meter(10, 10), [10]);
    assert RunAsWritten(two) == (Meter(0, 0), [10]);
    assert RunAsWritten(ops).1 == [10, 10];
    assert [10, 10][..1] == [10];
    assert Run(one) == (Meter(10, 10), [10]);
    assert Run(two) == (Meter(0, 10), [10]);
    assert Run(ops).1 == [10];
  }

  /**
   * ReadSeekCloserProgress, with the code's Seek. `deltas` are the values passed
   * to onDelta, in order.
   */
  class ReadSeekCloserProgress {
    var curPos: int
    var reported: int
    var deltas: seq<int>

    ghost predicate Valid()
      reads this
    {
      0 <= reported <= curPos && Sum(deltas) >= reported
    }

    constructor ()
      ensures Valid() && curPos == 0 && reported == 0 && deltas == []
    {
      curPos, reported, deltas := 0, 0, [];
    }

    /** Read passes the wrapped reader's answer (n bytes, `err`) through and reports the new bytes. */
    method Read(n: nat, err: bool) returns (got: nat, failed: bool)
      requires Valid()
      modifies this
      ensures Valid()
      ensures got == n && failed == err
      ensures |deltas| >= |old(deltas)|
      ensures (Meter(curPos, reported), deltas[|old(deltas)|..]) == OnRead(Meter(old(curPos), old(reported)), n)
      ensures deltas[..|old(deltas)|] == old(deltas)
    {
      assert deltas[|deltas|..] == [];
      if n > 0 {
        curPos := curPos + n;
        var delta := curPos - reported;
        if delta > 0 {
          SumAppend(deltas, [delta]);
          assert (deltas + [delta])[|deltas|..] == [delta];
          deltas := deltas + [delta];
          reported := reported + delta;
        }
      }
      return n, err;
    }

    /** Seek: a failed seek changes nothing; otherwise the position moves, lowering `reported` on a rewind. */
    method Seek(newPos: Option<nat>) returns (pos: int, failed: bool)
      requires Valid()
      modifies this
      ensures Valid()
      ensures deltas == old(deltas)
      ensures failed <==> newPos.None?
      ensures failed ==> pos == 0 && curPos == old(curPos) && reported == old(reported)
      ensures !failed ==> pos == newPos.value
      ensures !failed ==> Meter(curPos, reported) == OnSeekAsWritten(Meter(old(curPos), old(reported)), newPos.value)
    {
      if newPos.None? {
        return 0, true;
      }
      curPos := newPos.value;
      if curPos < reported {
        reported := curPos;
      }
      return curPos, false;
    }
  }
}
