/** What the children hold after any run of host I/O, copies and rebuild steps. */
module RebuildData {
  import opened Rebuild

  /** The value of block b once a step's write or unmap, if it is one of b, is through. */
  function NextValue(c: Config, v: Val, t: Step, b: nat): Val
    requires c.n >= 1
  {
    match t
    case LogWrite(_, b', w) => if b' == b then w else v
    case HostWrite(_, b', w) => if b' == b then w else v
    case LogUnmap(_, k) => if Seg(c.n, b) == k then 0 else v
    case HostUnmap(_, k) => if Seg(c.n, b) == k then 0 else v
    case _ => v
  }

  /** The value that the last write or unmap of block b in the run gave it. */
  function LastValue(c: Config, v: Val, ts: seq<Step>, b: nat): Val
    requires c.n >= 1
    decreases |ts|
  {
    if ts == [] then v else LastValue(c, NextValue(c, v, ts[0], b), ts[1..], b)
  }

  /** The source holds value v of block b, or a write or unmap of that value is under way to it. */
  predicate Due(c: Config, s: State, b: nat, v: Val)
    requires c.Ok() && Sized(c, s) && InData(c, b)
  {
    if b in s.inflight then
      && s.inflight[b].v == v && (s.inflight[b].srcDone ==> s.src[b] == v) && (s.inflight[b].unmap ==> v == 0)
    else s.src[b] == v
  }

  lemma DueStep(c: Config, s: State, t: Step, b: nat, v: Val)
    requires c.Ok() && Sized(c, s) && Allowed(c, s, t) && InData(c, b) && Due(c, s, b, v)
    ensures Due(c, Do(c, s, t), b, NextValue(c, v, t, b))
  {
    hide Seg, Rem, MergeAll, CopyLen, Allocated, Free;
  }

  lemma {:induction false} DueRun(c: Config, s: State, ts: seq<Step>, end: State, b: nat, v: Val)
    requires c.Ok() && Sized(c, s) && IsRun(c, s, ts, end) && InData(c, b) && Due(c, s, b, v)
    ensures Sized(c, end) && Due(c, end, b, LastValue(c, v, ts, b))
    decreases |ts|
  {
    hide Do, Allowed, Due, Seg, Rem;
    if ts != [] {
      DueStep(c, s, ts[0], b, v);
      DueRun(c, Do(c, s, ts[0]), ts[1..], end, b, NextValue(c, v, ts[0], b));
    }
  }

  /** In every run, failed or not, whatever the configuration: where no write is under way the source holds what the
      host last wrote there, or zero where it last unmapped. */
  lemma SourceHoldsLastValue(c: Config, s: State, ts: seq<Step>, end: State, b: nat)
    requires c.Ok() && Init(c, s) && IsRun(c, s, ts, end) && InData(c, b)
    ensures Sized(c, end) && (b !in end.inflight ==> end.src[b] == LastValue(c, s.src[b], ts, b))
  {
    DueRun(c, s, ts, end, b, s.src[b]);
  }

  /** So a completed rebuild of aligned data from a source that releases nothing leaves on the child, where no write is
      under way, what the host last wrote: before the child left, while it was away, or since. */
  lemma ChildHoldsLastValue(c: Config, s: State, ts: seq<Step>, end: State, b: nat)
    requires c.Ok() && c.Aligned() && !c.releases && Init(c, s) && IsRun(c, s, ts, end) && Completed(c, end)
    requires InData(c, b)
    ensures Sized(c, end) && (b !in end.inflight ==> end.dst[b] == LastValue(c, s.src[b], ts, b))
  {
    hide IsRun, Init;
    SourceHoldsLastValue(c, s, ts, end, b);
    RebuildSound(c, s, ts, end);
  }
}
