/** The chunk arithmetic of the wiper as values: which byte ranges a wipe visits, in which order. */
module WipePlan {
  import opened Bytes
  import opened Arith

  /** Blocks at the end of the device kept for the backup partition table. */
  const SKIP_BLOCKS := 33
  /** Larger chunks are split before they are issued. */
  const MAX_IO := 8 * 1024 * 1024

  datatype Error =
    | TooManyChunks | ChunkTooLarge | ChunkBlockSizeInvalid | ZeroBdev | WipeAborted | WipeIoFailed
    | MethodUnimplemented | ChunkNotifyFailed | DivideByZero

  datatype Result<+T> = Ok(value: T) | Err(error: Error)

  datatype Range = Range(off: nat, len: nat)

  /** What an iterator is created with. */
  datatype Plan = Plan(start: nat, total: nat, chunk: nat, extra: Option<nat>, chunks: nat)

  /** Bytes left of `bytes` once partial blocks and the trailing 33 blocks are dropped. Fewer than 33
      blocks are kept whole. */
  function Kept(bytes: nat, blockLen: nat): nat
    requires blockLen > 0
  {
    var blocks := bytes / blockLen;
    (if blocks >= SKIP_BLOCKS then blocks - SKIP_BLOCKS else blocks) * blockLen
  }

  /** WipeIterator::new. A zero divisor, where the original panics, is DivideByZero. */
  function NewPlan(start: nat, bytes: nat, chunkSize: nat, blockLen: nat): Result<Plan>
    requires blockLen > 0
  {
    if bytes == 0 then Err(ZeroBdev)
    else
      var total := Kept(bytes, blockLen);
      var chunk := if chunkSize == 0 then total else chunkSize;
      if chunk > total then Err(ChunkTooLarge)
      else if chunk % blockLen != 0 then Err(ChunkBlockSizeInvalid)
      else if chunk == 0 then Err(DivideByZero)
      else
        var remainder := total % chunk;
        if remainder % blockLen != 0 then Err(ChunkBlockSizeInvalid)
        else if remainder == 0 then Ok(Plan(start, total, chunk, None, total / chunk))
        else Ok(Plan(start, total, chunk, Some(remainder), total / chunk + 1))
  }

  /** The range of chunk k. */
  function ChunkAt(p: Plan, k: nat): Range
    requires k < p.chunks
  {
    Range(p.start + k * p.chunk, if p.extra.Some? && k == p.chunks - 1 then p.extra.value else p.chunk)
  }

  /** The shape every plan has. */
  predicate PlanOk(p: Plan, blockLen: nat) {
    && blockLen > 0 && p.chunk > 0 && p.chunks > 0
    && p.total == (if p.extra.Some? then (p.chunks - 1) * p.chunk + p.extra.value else p.chunks * p.chunk)
    && (p.extra.Some? ==> p.chunks >= 2 && 0 < p.extra.value < p.chunk && p.extra.value % blockLen == 0)
    && p.chunk % blockLen == 0
  }

  lemma MultipleMod(a: nat, b: nat, k: nat)
    requires k > 0 && b > 0 && a % k == 0 && b % k == 0
    ensures (a % b) % k == 0
  {
    DivMod(a, k); DivMod(b, k); DivMod(a, b);
    MultipleRest(a / k, b / k, a / b, k, a % b);
  }

  lemma MultipleRest(x: nat, y: nat, q: nat, k: nat, r: nat)
    requires k > 0 && x * k == q * (y * k) + r
    ensures r % k == 0
  {
    var z := x - q * y;
    assert r == z * k by { assert q * (y * k) == (q * y) * k; }
    if z < 0 { MulLe(z, -1, k); }
    MulMod(z, k);
  }

  /** Exactly when a wipe can be planned: there is something to wipe, the chunk is a positive multiple
      of the block size, and it is no larger than what is kept. */
  lemma NewPlanOkIff(start: nat, bytes: nat, chunkSize: nat, blockLen: nat)
    requires blockLen > 0
    ensures var chunk := if chunkSize == 0 then Kept(bytes, blockLen) else chunkSize;
            NewPlan(start, bytes, chunkSize, blockLen).Ok?
            <==> bytes > 0 && 0 < chunk <= Kept(bytes, blockLen) && chunk % blockLen == 0
    ensures var r, kept := NewPlan(start, bytes, chunkSize, blockLen), Kept(bytes, blockLen);
            && (r == Err(ZeroBdev) <==> bytes == 0)
            && (r == Err(ChunkTooLarge) <==> bytes > 0 && chunkSize > kept)
            && (r == Err(ChunkBlockSizeInvalid) <==> bytes > 0 && chunkSize <= kept && chunkSize % blockLen != 0)
            && (r == Err(DivideByZero) <==> bytes > 0 && chunkSize == 0 && kept == 0)
  {
    var total := Kept(bytes, blockLen);
    var chunk := if chunkSize == 0 then total else chunkSize;
    MulMod(total / blockLen, blockLen);
    KeptBlocks(bytes, blockLen);
    if 0 < chunk && chunk % blockLen == 0 { MultipleMod(total, chunk, blockLen); }
  }

  lemma KeptBlocks(bytes: nat, blockLen: nat)
    requires blockLen > 0
    ensures Kept(bytes, blockLen) % blockLen == 0
    ensures Kept(bytes, blockLen) <= bytes
    ensures bytes / blockLen >= 33 ==>
              Kept(bytes, blockLen) + 33 * blockLen <= bytes < Kept(bytes, blockLen) + 34 * blockLen
    ensures bytes / blockLen < 33 ==> bytes < Kept(bytes, blockLen) + blockLen
    ensures bytes / blockLen < 33 && bytes % blockLen == 0 ==> Kept(bytes, blockLen) == bytes
  {
    DivMod(bytes, blockLen);
    var blocks := bytes / blockLen;
    var keep := if blocks >= SKIP_BLOCKS then blocks - SKIP_BLOCKS else blocks;
    MulMod(keep, blockLen);
    assert keep * blockLen == blocks * blockLen - (if blocks >= SKIP_BLOCKS then SKIP_BLOCKS * blockLen else 0);
  }

  lemma NewPlanShape(start: nat, bytes: nat, chunkSize: nat, blockLen: nat)
    requires blockLen > 0 && NewPlan(start, bytes, chunkSize, blockLen).Ok?
    ensures var p := NewPlan(start, bytes, chunkSize, blockLen).value;
            && PlanOk(p, blockLen) && p.start == start && p.total == Kept(bytes, blockLen)
            && p.chunk == (if chunkSize == 0 then p.total else chunkSize)
  {
    var p := NewPlan(start, bytes, chunkSize, blockLen).value;
    DivMod(p.total, p.chunk);
    assert p.total / p.chunk >= 1 by {
      if p.total / p.chunk <= 0 { MulLe(p.total / p.chunk, 0, p.chunk); }
    }
  }

  // ------------------------------------------------------------------ tilings

  /** Ranges laid end to end from lo to hi: ordered, without gap or overlap, none empty. */
  predicate Tiles(rs: seq<Range>, lo: nat, hi: nat) {
    if rs == [] then lo == hi
    else rs[0].off == lo && rs[0].len > 0 && Tiles(rs[1..], lo + rs[0].len, hi)
  }

  predicate Touched(rs: seq<Range>, x: int) {
    exists i :: 0 <= i < |rs| && rs[i].off <= x < rs[i].off + rs[i].len
  }

  /** A tiling touches exactly the bytes from lo to hi. */
  lemma {:induction false} TilesTouch(rs: seq<Range>, lo: nat, hi: nat, x: int)
    requires Tiles(rs, lo, hi)
    ensures lo <= hi && (Touched(rs, x) <==> lo <= x < hi)
  {
    if rs != [] {
      TilesTouch(rs[1..], lo + rs[0].len, hi, x);
      TouchedCons(rs, x);
    }
  }

  lemma TouchedCons(rs: seq<Range>, x: int)
    requires rs != []
    ensures Touched(rs, x) <==> rs[0].off <= x < rs[0].off + rs[0].len || Touched(rs[1..], x)
  {
    if i :| 0 <= i < |rs[1..]| && rs[1..][i].off <= x < rs[1..][i].off + rs[1..][i].len {
      assert rs[i + 1] == rs[1..][i];
    }
    if i :| 0 <= i < |rs| && rs[i].off <= x < rs[i].off + rs[i].len {
      if i > 0 { assert rs[i] == rs[1..][i - 1]; }
    }
  }

  lemma TouchedConcat(a: seq<Range>, b: seq<Range>, x: int)
    ensures Touched(a + b, x) <==> Touched(a, x) || Touched(b, x)
  {
    if i :| 0 <= i < |a| && a[i].off <= x < a[i].off + a[i].len { assert (a + b)[i] == a[i]; }
    if i :| 0 <= i < |b| && b[i].off <= x < b[i].off + b[i].len { assert (a + b)[|a| + i] == b[i]; }
  }

  lemma {:induction false} TilesConcat(a: seq<Range>, b: seq<Range>, lo: nat, mid: nat, hi: nat)
    requires Tiles(a, lo, mid) && Tiles(b, mid, hi)
    ensures Tiles(a + b, lo, hi)
  {
    if a == [] {
      assert a + b == b;
    } else {
      assert (a + b)[1..] == a[1..] + b;
      TilesConcat(a[1..], b, lo + a[0].len, mid, hi);
    }
  }

  /** The first k chunks of a plan. */
  function Chunks(p: Plan, k: nat): (rs: seq<Range>)
    requires k <= p.chunks
    ensures |rs| == k
  {
    if k == 0 then [] else Chunks(p, k - 1) + [ChunkAt(p, k - 1)]
  }

  /** Where chunk k starts, and where the last one ends. */
  function Mark(p: Plan, k: nat): nat
    requires k <= p.chunks
  {
    if k == p.chunks then p.start + p.total else p.start + k * p.chunk
  }

  lemma MarkStep(p: Plan, blockLen: nat, k: nat)
    requires PlanOk(p, blockLen) && k < p.chunks
    ensures var r := ChunkAt(p, k);
            && r.off == Mark(p, k) && r.len > 0 && Mark(p, k + 1) == r.off + r.len
            && r.len % blockLen == 0 && (r.off - p.start) % blockLen == 0 && r.off >= p.start
            && r.len <= p.chunk
  {
    assert (k + 1) * p.chunk == k * p.chunk + p.chunk;
    MultipleOfMultiple(k, p.chunk, blockLen);
  }

  lemma MultipleOfMultiple(k: nat, a: nat, b: nat)
    requires b > 0 && a % b == 0
    ensures k * a >= 0 && (k * a) % b == 0
  {
    DivMod(a, b);
    var c := a / b;
    assert k * a == k * (c * b) == (k * c) * b;
    MulMod(k * c, b);
  }

  /** The chunks of a plan are block-aligned and tile the whole range it covers. */
  lemma {:induction false} ChunksTile(p: Plan, blockLen: nat, k: nat)
    requires PlanOk(p, blockLen) && k <= p.chunks
    ensures Tiles(Chunks(p, k), p.start, Mark(p, k))
    ensures forall i :: 0 <= i < k ==> Chunks(p, k)[i] == ChunkAt(p, i)
  {
    if k > 0 {
      ChunksTile(p, blockLen, k - 1);
      MarkStep(p, blockLen, k - 1);
      var r := ChunkAt(p, k - 1);
      assert [r][1..] == [];
      assert Tiles([r], Mark(p, k - 1), Mark(p, k));
      TilesConcat(Chunks(p, k - 1), [r], p.start, Mark(p, k - 1), Mark(p, k));
    }
  }

  // ------------------------------------------------------------ the I/O issued

  /** The I/Os of one chunk: the chunk itself, or its split when it is over 8 MiB. The split drops
      the last 33 blocks of the chunk again. */
  function ChunkIos(r: Range, blockLen: nat): Result<seq<Range>>
    requires blockLen > 0
  {
    if r.len <= MAX_IO then Ok([r])
    else match NewPlan(r.off, r.len, MAX_IO, blockLen)
      case Err(e) => Err(e)
      case Ok(p) => Ok(Chunks(p, p.chunks))
  }

  /** Bytes of a chunk that its I/Os reach. */
  function Reach(len: nat, blockLen: nat): nat
    requires blockLen > 0
  {
    if len <= MAX_IO then len else Kept(len, blockLen)
  }

  /** A chunk of this size is at most 8 MiB, or 8 MiB is a multiple of the block size and still fits once
      the last 33 blocks of the chunk are dropped. */
  predicate Issuable(len: nat, blockLen: nat)
    requires blockLen > 0
  {
    len <= MAX_IO || (MAX_IO % blockLen == 0 && MAX_IO <= Kept(len, blockLen))
  }

  /** Exactly the chunks of such a size can be issued; their I/Os tile the chunk up to its reach. */
  lemma ChunkIosExact(r: Range, blockLen: nat)
    requires blockLen > 0 && r.len > 0
    ensures ChunkIos(r, blockLen).Ok? <==> Issuable(r.len, blockLen)
    ensures ChunkIos(r, blockLen).Ok? ==> Tiles(ChunkIos(r, blockLen).value, r.off, r.off + Reach(r.len, blockLen))
  {
    if r.len <= MAX_IO {
      assert [r][1..] == [];
    } else {
      NewPlanOkIff(r.off, r.len, MAX_IO, blockLen);
      if ChunkIos(r, blockLen).Ok? {
        NewPlanShape(r.off, r.len, MAX_IO, blockLen);
        var p := NewPlan(r.off, r.len, MAX_IO, blockLen).value;
        ChunksTile(p, blockLen, p.chunks);
      }
    }
  }

  /** Every I/O of a chunk is at most 8 MiB and a whole number of blocks, and all but the last of a split chunk are
      exactly 8 MiB. */
  lemma ChunkIosSizes(r: Range, blockLen: nat, i: nat)
    requires blockLen > 0 && r.len > 0 && r.len % blockLen == 0
    requires ChunkIos(r, blockLen).Ok? && i < |ChunkIos(r, blockLen).value|
    ensures var ios := ChunkIos(r, blockLen).value;
            && 0 < ios[i].len <= 8388608 && ios[i].len % blockLen == 0
            && (r.len > 8388608 && i < |ios| - 1 ==> ios[i].len == 8388608)
            && (r.len <= 8388608 ==> ios == [r])
  {
    if r.len > MAX_IO {
      NewPlanShape(r.off, r.len, MAX_IO, blockLen);
      var p := NewPlan(r.off, r.len, MAX_IO, blockLen).value;
      ChunksTile(p, blockLen, p.chunks);
      MarkStep(p, blockLen, i);
    }
  }

  /** The I/Os of the first k chunks; a chunk that cannot be issued adds none. */
  function Ios(p: Plan, blockLen: nat, k: nat): seq<Range>
    requires blockLen > 0 && k <= p.chunks
  {
    if k == 0 then []
    else
      var c := ChunkIos(ChunkAt(p, k - 1), blockLen);
      Ios(p, blockLen, k - 1) + (if c.Ok? then c.value else [])
  }

  predicate AllIssued(p: Plan, blockLen: nat, k: nat)
    requires blockLen > 0 && k <= p.chunks
  {
    forall i :: 0 <= i < k ==> ChunkIos(ChunkAt(p, i), blockLen).Ok?
  }

  /** Exactly when a wipe can come to its end: both the chunk size and the size of a short last chunk can be
      issued. */
  lemma AllIssuedIff(p: Plan, blockLen: nat)
    requires PlanOk(p, blockLen)
    ensures AllIssued(p, blockLen, p.chunks)
            <==> Issuable(p.chunk, blockLen) && (p.extra.Some? ==> Issuable(p.extra.value, blockLen))
  {
    hide Issuable, ChunkIos;
    forall i | 0 <= i < p.chunks
      ensures ChunkIos(ChunkAt(p, i), blockLen).Ok? <==> Issuable(ChunkAt(p, i).len, blockLen)
    {
      MarkStep(p, blockLen, i);
      ChunkIosExact(ChunkAt(p, i), blockLen);
    }
    assert ChunkAt(p, 0).len == p.chunk;
    if p.extra.Some? { assert ChunkAt(p, p.chunks - 1).len == p.extra.value; }
  }

  /** Where only the short last chunk cannot be issued, every chunk before it can, and the wipe fails with
      ChunkTooLarge behind all of them. */
  lemma LateFailure(p: Plan, blockLen: nat)
    requires PlanOk(p, blockLen) && Issuable(p.chunk, blockLen)
    requires p.extra.Some? && !Issuable(p.extra.value, blockLen)
    ensures AllIssued(p, blockLen, p.chunks - 1)
    ensures ChunkIos(ChunkAt(p, p.chunks - 1), blockLen) == Err(ChunkTooLarge)
  {
    hide ChunkIos;
    forall i | 0 <= i < p.chunks - 1 ensures ChunkIos(ChunkAt(p, i), blockLen).Ok? {
      MarkStep(p, blockLen, i);
      ChunkIosExact(ChunkAt(p, i), blockLen);
    }
    var last := ChunkAt(p, p.chunks - 1);
    NewPlanOkIff(last.off, last.len, MAX_IO, blockLen);
    assert ChunkIos(last, blockLen) == Err(ChunkTooLarge) by { TooLargeChunk(last, blockLen); }
  }

  lemma TooLargeChunk(r: Range, blockLen: nat)
    requires blockLen > 0 && r.len > MAX_IO > Kept(r.len, blockLen)
    ensures ChunkIos(r, blockLen) == Err(ChunkTooLarge)
  {
    NewPlanOkIff(r.off, r.len, MAX_IO, blockLen);
  }

  /** Such a wipe is accepted: 16 MiB chunks on a device of 512-byte blocks that leaves 8 MiB and one block. */
  lemma LateFailureAccepted(blockLen: nat, chunk: nat) returns (p: Plan)
    requires blockLen == 512 && chunk == 2 * MAX_IO
    ensures NewPlan(0, chunk + MAX_IO + 34 * blockLen, chunk, blockLen) == Ok(p)
    ensures PlanOk(p, blockLen) && Issuable(p.chunk, blockLen) && p.extra.Some? && !Issuable(p.extra.value, blockLen)
  {
    var bytes := chunk + MAX_IO + 34 * blockLen;
    NewPlanOkIff(0, bytes, chunk, blockLen);
    NewPlanShape(0, bytes, chunk, blockLen);
    p := NewPlan(0, bytes, chunk, blockLen).value;
  }

  /** Exactly the bytes a run touches: in every chunk, those below the chunk's reach. */
  lemma {:induction false} IosTouch(p: Plan, blockLen: nat, k: nat, x: int)
    requires PlanOk(p, blockLen) && k <= p.chunks && AllIssued(p, blockLen, k)
    ensures Touched(Ios(p, blockLen, k), x)
            <==> exists i :: 0 <= i < k
                   && ChunkAt(p, i).off <= x < ChunkAt(p, i).off + Reach(ChunkAt(p, i).len, blockLen)
  {
    if k > 0 {
      IosTouch(p, blockLen, k - 1, x);
      var r := ChunkAt(p, k - 1);
      var ios := ChunkIos(r, blockLen).value;
      MarkStep(p, blockLen, k - 1);
      ChunkIosExact(r, blockLen);
      TilesTouch(ios, r.off, r.off + Reach(r.len, blockLen), x);
      TouchedConcat(Ios(p, blockLen, k - 1), ios, x);
    }
  }
}
