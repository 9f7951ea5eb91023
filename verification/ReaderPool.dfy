/** Reading several logs in order of time. */
module ReaderPool {
  import opened Options
  import opened PageLog
  import opened PageLogSeek

  /** A frame with the place of its reader in the pool. */
  datatype Item = Item(reader: int, rec: Rec)

  // ---------------------------------------------------------------- the earliest frame

  /** The loop of `seqRead` over the first n readers: the reader chosen and its time, both -1 when there is none. */
  function Choose(left: seq<seq<Rec>>, n: nat): (r: (int, int))
    requires n <= |left|
    ensures -1 <= r.0 < n && (r.0 >= 0 ==> left[r.0] != [] && r.1 == left[r.0][0].nano) && (r.0 == -1 ==> r.1 == -1)
  {
    if n == 0 then (-1, -1)
    else
      var c := Choose(left, n - 1);
      if left[n - 1] != [] && (c.1 < 0 || c.1 > left[n - 1][0].nano) then (n - 1, left[n - 1][0].nano) else c
  }

  /** `seqRead` on logs that are not being written: what is handed out, and what each reader still has. */
  function SeqRead(left: seq<seq<Rec>>): (r: (Option<Item>, seq<seq<Rec>>)) {
    var k := Choose(left, |left|).0;
    if k == -1 then (None, left) else (Some(Item(k, left[k][0])), left[k := left[k][1..]])
  }

  function Total(left: seq<seq<Rec>>, n: nat): nat
    requires n <= |left|
  {
    if n == 0 then 0 else Total(left, n - 1) + |left[n - 1]|
  }

  lemma {:induction false} TotalLess(left: seq<seq<Rec>>, k: nat, n: nat)
    requires k < |left| && left[k] != [] && n <= |left|
    ensures Total(left[k := left[k][1..]], n) == Total(left, n) - if k < n then 1 else 0
  {
    if n > 0 { TotalLess(left, k, n - 1); }
  }

  /** All frames that seqRead hands out until there are none. */
  function Drain(left: seq<seq<Rec>>): seq<Item>
    decreases Total(left, |left|)
  {
    var r := SeqRead(left);
    if r.0.None? then []
    else
      TotalLess(left, r.0.value.reader, |left|);
      [r.0.value] + Drain(r.1)
  }

  /** The readers of the pool, each with its own place in its own log. */
  class CReaderPool {
    var readers: seq<RawIOReader>

    ghost predicate Valid()
      reads this, readers, set r | r in readers :: r.disk
    {
      && (forall i, j | 0 <= i < j < |readers| :: readers[i] != readers[j])
      && forall r | r in readers :: r.Valid()
    }

    /** What each reader has yet to deliver. */
    ghost function Lefts(): (left: seq<seq<Rec>>)
      requires Valid()
      reads this, readers, set r | r in readers :: r.disk
      ensures |left| == |readers|
    {
      seq(|readers|, i requires Valid() && 0 <= i < |readers|
                       reads this, readers, set r | r in readers :: r.disk => readers[i].Remaining())
    }

    constructor (rs: seq<RawIOReader>)
      requires forall i, j | 0 <= i < j < |rs| :: rs[i] != rs[j]
      requires forall r | r in rs :: r.Valid()
      ensures Valid() && readers == rs
    {
      readers := rs;
    }

    /** `seqRead`. */
    method Next() returns (r: Option<Item>)
      requires Valid()
      modifies readers
      ensures Valid() && readers == old(readers)
      ensures (r, Lefts()) == SeqRead(old(Lefts()))
    {
      hide Valid, Lefts;
      ghost var left := Lefts();
      var cur, minNano := -1, -1;
      for i := 0 to |readers|
        invariant Valid() && Lefts() == left
        invariant (cur, minNano) == Choose(left, i)
      {
        var p := Show(i);
        if p.Some? && (minNano < 0 || minNano > p.value.nano) {
          minNano, cur := p.value.nano, i;
        }
      }
      if cur == -1 {
        return None;
      }
      var rec := Take(cur);
      r := Some(Item(cur, rec));
    }

    /** `getCurFrame` of one reader. */
    method Show(i: nat) returns (p: Option<Rec>)
      requires Valid() && i < |readers|
      modifies readers[i]
      ensures Valid() && Lefts() == old(Lefts())
      ensures p == if Lefts()[i] == [] then None else Some(Lefts()[i][0])
    {
      p := readers[i].GetCurFrame();
    }

    /** `read` of the reader chosen. */
    method Take(i: nat) returns (rec: Rec)
      requires Valid() && i < |readers| && Lefts()[i] != []
      modifies readers[i]
      ensures Valid() && rec == old(Lefts())[i][0]
      ensures Lefts() == old(Lefts())[i := old(Lefts())[i][1..]]
    {
      var p := readers[i].Read();
      rec := p.value;
    }
  }

  // ---------------------------------------------------------------- what is handed out

  /** Earlier frames first, and of frames of one time those of earlier readers. */
  predicate Leq(x: Item, y: Item) {
    x.rec.nano < y.rec.nano || (x.rec.nano == y.rec.nano && x.reader <= y.reader)
  }

  predicate Sorted(items: seq<Item>) {
    forall i, j | 0 <= i < j < |items| :: Leq(items[i], items[j])
  }

  function Of(items: seq<Item>, k: int): seq<Rec> {
    if items == [] then [] else (if items[0].reader == k then [items[0].rec] else []) + Of(items[1..], k)
  }

  /** Times that do not decrease. */
  predicate InOrder(log: seq<Rec>) {
    forall i, j | 0 <= i < j < |log| :: log[i].nano <= log[j].nano
  }

  predicate AllInOrder(left: seq<seq<Rec>>) {
    forall k | 0 <= k < |left| :: InOrder(left[k])
  }

  predicate Has(left: seq<seq<Rec>>, x: Item) {
    0 <= x.reader < |left| && x.rec in left[x.reader]
  }

  lemma {:induction false} ChooseFirst(left: seq<seq<Rec>>, n: nat)
    requires n <= |left|
    ensures var c := Choose(left, n);
      (c.0 == -1 ==> forall i | 0 <= i < n :: left[i] == []) &&
      (c.0 >= 0 ==> c.1 >= 0) &&
      (forall i | 0 <= i < n && left[i] != [] :: c.1 <= left[i][0].nano && (i < c.0 ==> c.1 < left[i][0].nano))
  {
    if n > 0 { ChooseFirst(left, n - 1); }
  }

  lemma ReadOk(left: seq<seq<Rec>>)
    ensures var r := SeqRead(left);
      (AllInOrder(left) ==> AllInOrder(r.1)) && |r.1| == |left| && (r.0.None? ==> forall k | 0 <= k < |left| :: left[k] == []) &&
      (forall k | 0 <= k < |left| ::
        left[k] == (if r.0.Some? && r.0.value.reader == k then [r.0.value.rec] else []) + r.1[k]) &&
      (r.0.Some? ==> Has(left, r.0.value))
  {
    hide Choose;
    ChooseFirst(left, |left|);
    var k := Choose(left, |left|).0;
    if k >= 0 {
      assert InOrder(left[k]) ==> InOrder(left[k][1..]);
    }
  }

  lemma ReadLeast(left: seq<seq<Rec>>, x: Item)
    requires Has(SeqRead(left).1, x)
    ensures Has(left, x) && (SeqRead(left).0.Some? && AllInOrder(left) ==> Leq(SeqRead(left).0.value, x))
  {
    hide Choose;
    ChooseFirst(left, |left|);
    var k := Choose(left, |left|).0;
    var i := x.reader;
    assert AllInOrder(left) ==> InOrder(left[i]);
    if k >= 0 {
      var j :| 0 <= j < |SeqRead(left).1[i]| && SeqRead(left).1[i][j] == x.rec;
      assert x.rec == left[i][if i == k then j + 1 else j];
    }
  }

  lemma {:induction false} DrainHas(left: seq<seq<Rec>>)
    ensures forall x | x in Drain(left) :: Has(left, x)
    decreases Total(left, |left|)
  {
    hide SeqRead, Has, InOrder, Leq;
    ReadOk(left);
    var r := SeqRead(left);
    if r.0.Some? {
      ReadFits(left);
      DrainHas(r.1);
      forall x | x in Drain(r.1) ensures Has(left, x) { ReadLeast(left, x); }
    }
  }

  lemma ReadFits(left: seq<seq<Rec>>)
    requires SeqRead(left).0.Some?
    ensures Total(SeqRead(left).1, |SeqRead(left).1|) < Total(left, |left|)
  {
    TotalLess(left, SeqRead(left).0.value.reader, |left|);
  }

  lemma {:induction false} DrainSorted(left: seq<seq<Rec>>)
    requires AllInOrder(left)
    ensures Sorted(Drain(left))
    decreases Total(left, |left|)
  {
    hide SeqRead, Has, InOrder, Leq;
    ReadOk(left);
    var r := SeqRead(left);
    if r.0.Some? {
      ReadFits(left);
      DrainSorted(r.1);
      DrainHas(r.1);
      var rest := Drain(r.1);
      forall j | 0 <= j < |rest| ensures Leq(r.0.value, rest[j]) { ReadLeast(left, rest[j]); }
    }
  }

  lemma {:induction false} DrainComplete(left: seq<seq<Rec>>, k: nat)
    requires k < |left|
    ensures Of(Drain(left), k) == left[k]
    decreases Total(left, |left|)
  {
    hide SeqRead, Has, InOrder, Leq;
    ReadOk(left);
    var r := SeqRead(left);
    if r.0.Some? {
      ReadFits(left);
      DrainComplete(r.1, k);
      assert Drain(left)[1..] == Drain(r.1);
    }
  }

  /**
   * Logs read to their end: all frames of each log, once and in its order, and no other; if every log is in order of
   * time, merged by time and then by reader.
   */
  lemma PoolMerges(logs: seq<seq<Rec>>)
    ensures forall k | 0 <= k < |logs| :: Of(Drain(logs), k) == logs[k]
    ensures forall x | x in Drain(logs) :: Has(logs, x)
    ensures AllInOrder(logs) ==> Sorted(Drain(logs))
  {
    hide Drain, InOrder, AllInOrder;
    forall k | 0 <= k < |logs| ensures Of(Drain(logs), k) == logs[k] {
      DrainComplete(logs, k);
    }
    DrainHas(logs);
    if AllInOrder(logs) { DrainSorted(logs); }
  }
}
