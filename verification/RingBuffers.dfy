/** The flat buffer of an allreduce as `n * micros` equally long slots, chunk by chunk. */
module RingBuffers {
  import opened RingIndex
  import opened RingLocal
  import opened Ops

  /** The operator on whole slots. */
  function Lift<T>(op: (T, T) -> T): (seq<T>, seq<T>) -> seq<T> { (a, b) => Combined(op, a, b) }

  ghost predicate Tiled(len: nat, n: nat, micros: nat, micro: nat) { len == n * micros * micro }

  lemma SlotFits(i: nat, total: nat, micro: nat)
    requires i < total
    ensures i * micro + micro <= total * micro
  {
    assert (total - i - 1) * micro >= 0;
    assert total * micro == i * micro + micro + (total - i - 1) * micro;
  }

  lemma Scaled(a: nat, b: nat, k: nat)
    ensures a <= b ==> a * k <= b * k
  {
    if a <= b {
      assert b * k == a * k + (b - a) * k;
    }
  }

  lemma SlotInRange(n: nat, micros: nat, c: nat, m: nat)
    requires c < n && m < micros
    ensures c * micros + m < n * micros
  {
    SlotFits(c, n, micros);
  }

  /** Slot numbers determine chunk and micro-chunk, so chains never share a slot. */
  lemma SlotNumber(micros: nat, c: nat, m: nat)
    requires m < micros
    ensures (c * micros + m) / micros == c && (c * micros + m) % micros == m
  {
    var i := c * micros + m;
    var q := i / micros;
    assert i == q * micros + i % micros;
    if q < c {
      SlotFits(q, c, micros);
    } else if c < q {
      SlotFits(c, q, micros);
    }
  }

  /** The slots partition the buffer: every position lies in exactly one, and two slots never overlap. */
  lemma SlotsPartition(total: nat, micro: nat, e: nat)
    requires micro > 0 && e < total * micro
    ensures e / micro < total
    ensures forall i :: 0 <= i < total ==> (i * micro <= e < i * micro + micro <==> i == e / micro)
  {
    var q := e / micro;
    assert e == q * micro + e % micro;
    Scaled(total, q, micro);
    forall i | 0 <= i < total ensures i * micro <= e < i * micro + micro <==> i == q {
      if i < q {
        SlotFits(i, q, micro);
      } else if q < i {
        SlotFits(q, i, micro);
      }
    }
  }

  /** The slot table of the source, `i -> i / micros * chunk + i % micros * micro`, lists the slots in order. */
  lemma TableOffset(micros: nat, micro: nat, i: nat)
    requires micros > 0
    ensures (i / micros) * (micros * micro) + (i % micros) * micro == i * micro
  {
    var q := i / micros;
    assert i == q * micros + i % micros;
    assert q * (micros * micro) == (q * micros) * micro;
    assert (q * micros + i % micros) * micro == (q * micros) * micro + (i % micros) * micro;
  }

  function Slot<T>(buf: seq<T>, i: nat, micro: nat): (s: seq<T>)
    requires i * micro + micro <= |buf|
    ensures |s| == micro
  {
    buf[i * micro..i * micro + micro]
  }

  /** Chunk `c` of micro-chunk `m`, for all chunks: the row chain `m` works on. */
  ghost function Row<T>(buf: seq<T>, n: nat, micros: nat, micro: nat, m: nat): (row: seq<seq<T>>)
    requires Tiled(|buf|, n, micros, micro) && m < micros
    ensures |row| == n
  {
    seq(n, c requires 0 <= c < n => RowCell(buf, n, micros, micro, m, c))
  }

  ghost function RowCell<T>(buf: seq<T>, n: nat, micros: nat, micro: nat, m: nat, c: nat): seq<T>
    requires Tiled(|buf|, n, micros, micro) && m < micros && c < n
  {
    SlotInRange(n, micros, c, m);
    SlotFits(c * micros + m, n * micros, micro);
    Slot(buf, c * micros + m, micro)
  }

  /** Rewriting slot `c` of row `m` changes that cell and no other cell of any row. */
  lemma RewriteSlot<T>(was: seq<T>, now: seq<T>, n: nat, micros: nat, micro: nat, m: nat, c: nat, bytes: seq<T>)
    requires Tiled(|was|, n, micros, micro) && |now| == |was| && m < micros && c < n && |bytes| == micro
    requires (c * micros + m) * micro + micro <= |was|
    requires var lo := (c * micros + m) * micro;
      now[lo..lo + micro] == bytes && now[..lo] == was[..lo] && now[lo + micro..] == was[lo + micro..]
    ensures Row(now, n, micros, micro, m) == Row(was, n, micros, micro, m)[c := bytes]
    ensures forall k :: 0 <= k < micros && k != m ==> Row(now, n, micros, micro, k) == Row(was, n, micros, micro, k)
  {
    forall k, d | 0 <= k < micros && 0 <= d < n && (k != m || d != c)
      ensures RowCell(now, n, micros, micro, k, d) == RowCell(was, n, micros, micro, k, d)
    {
      SlotNumber(micros, c, m);
      SlotNumber(micros, d, k);
      SlotInRange(n, micros, d, k);
      SlotFits(d * micros + k, n * micros, micro);
      OtherSlot(was, now, micro, c * micros + m, d * micros + k);
    }
  }

  lemma OtherSlot<T>(was: seq<T>, now: seq<T>, micro: nat, i: nat, j: nat)
    requires |now| == |was| && i != j && i * micro + micro <= |was| && j * micro + micro <= |was|
    requires now[..i * micro] == was[..i * micro] && now[i * micro + micro..] == was[i * micro + micro..]
    ensures Slot(now, j, micro) == Slot(was, j, micro)
  {
    var lo, at := i * micro, j * micro;
    if j < i {
      SlotFits(j, i, micro);
      SliceBelow(was, now, lo, at, micro);
    } else {
      SlotFits(i, j, micro);
      SliceAbove(was, now, lo + micro, at, micro);
    }
  }

  /** A slice inside a common prefix, or a common suffix, is common. */
  lemma SliceBelow<T>(was: seq<T>, now: seq<T>, hi: nat, at: nat, len: nat)
    requires at + len <= hi <= |was| && hi <= |now| && now[..hi] == was[..hi]
    ensures now[at..at + len] == was[at..at + len]
  {
    var here, held := now[at..at + len], was[at..at + len];
    forall i: nat | i < len ensures here[i] == held[i] {
      assert now[..hi][at + i] == was[..hi][at + i];
    }
  }

  lemma SliceAbove<T>(was: seq<T>, now: seq<T>, lo: nat, at: nat, len: nat)
    requires lo <= at && at + len <= |was| == |now| && now[lo..] == was[lo..]
    ensures now[at..at + len] == was[at..at + len]
  {
    var here, held := now[at..at + len], was[at..at + len];
    forall i: nat | i < len ensures here[i] == held[i] {
      assert now[lo..][at + i - lo] == was[lo..][at + i - lo];
    }
  }

  /** What lies where after `bytes` replace a stretch from `lo` on. */
  lemma SliceReplaced<T>(was: seq<T>, bytes: seq<T>, lo: nat, at: nat, len: nat)
    requires lo + |bytes| <= |was|
    ensures var now := was[..lo] + bytes + was[lo + |bytes|..];
      && |now| == |was|
      && (at + len <= lo ==> now[at..at + len] == was[at..at + len])
      && (lo <= at && at + len <= lo + |bytes| ==> now[at..at + len] == bytes[at - lo..at - lo + len])
  {
    var now := was[..lo] + bytes + was[lo + |bytes|..];
    if at + len <= lo {
      var here, held := now[at..at + len], was[at..at + len];
      forall i: nat | i < len ensures here[i] == held[i] {
        assert now[at + i] == was[..lo][at + i];
      }
    }
    if lo <= at && at + len <= lo + |bytes| {
      var here, held := now[at..at + len], bytes[at - lo..at - lo + len];
      forall i: nat | i < len ensures here[i] == held[i] {
        assert now[at + i] == bytes[at + i - lo];
      }
    }
  }
}
