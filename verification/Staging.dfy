/** Staging a response: a shared byte budget, and bodies that stay in memory until
    they spill to a file. Writes, seeks and reads may fail or fall short at any
    point; what the operating system does is passed in. */
module Staging {

  type Byte = bv8

  const MEMORY_LIMIT := 0x10_0000
  const BODY_LIMIT := 0x400_0000
  const METADATA_LIMIT := 0x10_0000

  class Budget {
    const limit: nat
    var used: int

    ghost predicate Valid() reads this { 0 <= used <= limit }

    constructor (limit: nat)
      ensures this.limit == limit && used == 0 && Valid()
    {
      this.limit, used := limit, 0;
    }

    method Reserve(n: nat) returns (ok: bool)
      requires Valid()
      modifies this
      ensures Valid() && (ok <==> old(used) + n <= limit) && used == old(used) + (if ok then n else 0)
    {
      if n > limit - used { return false; }
      used := used + n;
      return true;
    }

    method Release(n: nat)
      requires n <= used && Valid()
      modifies this
      ensures Valid() && used == old(used) - n
    {
      used := used - n;
    }
  }

  /** A spool file: its bytes and the position reads and writes start from. */
  datatype Spool = NoFile | File(bytes: seq<Byte>, pos: nat)

  /** Bytes written at a position replace what is there and extend the file. */
  function Overwritten(bytes: seq<Byte>, pos: nat, p: seq<Byte>): seq<Byte>
    requires pos <= |bytes|
  {
    bytes[..pos] + p + (if pos + |p| <= |bytes| then bytes[pos + |p|..] else [])
  }

  /** What the operating system does during one body write: whether the file can be
      created, whether the memory can be spilled, how many new bytes it takes. */
  datatype Disk = Disk(creates: bool, spills: bool, takes: nat)

  /** What it does while a spool is read back: whether the seeks work, and how many
      bytes come before the end or an error. */
  datatype Readback = Readback(seeks: bool, gives: nat, breaks: bool, rewinds: bool)

  function Least(a: nat, b: nat): nat { if a < b then a else b }

  /** Where a body is between its calls on the budget: the reserve of a write or of
      metadata is granted and not counted yet, bytes are due back, or they are back and
      still counted. When the staging is `over`, nothing else is counted and the metadata
      count starts anew once they are. */
  datatype Phase = Resting | Granted(p: seq<Byte>) | GrantedMetadata(n: nat) | Owing(n: nat, over: bool) | Returned(n: nat, over: bool)

  class Body {
    var memory: seq<Byte>
    var file: Spool
    var size: nat
    const budget: Budget
    var reserved: nat
    var metadata: nat  // how many of the response's metadata bytes were reserved through this body
    var validated: bool
    var phase: Phase
    ghost var accepted: seq<Byte>  // the bytes reported as written since the last reset

    ghost function Staged(): seq<Byte> reads this { if file.NoFile? then memory else file.bytes }

    /** The staged bytes are the accepted ones whenever they are as many. */
    ghost predicate Holding()
      reads this
    {
      && size == |accepted| && |Staged()| <= size && (|Staged()| == size ==> Staged() == accepted)
      && (if file.NoFile? then |memory| == size else memory == [] && file.pos <= |file.bytes|)
      && (validated && file.File? ==> |file.bytes| == size)
      && size <= BODY_LIMIT && metadata <= METADATA_LIMIT && |memory| <= MEMORY_LIMIT
    }

    /** The counter covers the staged bytes, metadata at most, and what is due back. */
    ghost predicate Counting(owed: nat) reads this { size + owed <= reserved <= size + owed + metadata }

    /** What holds between any two calls on the budget, a write in progress or not. */
    ghost predicate Steady()
      reads this
    {
      && Holding()
      && match phase
         case Resting => Counting(0)
         case Granted(p) => Counting(0) && size + |p| <= BODY_LIMIT
         case GrantedMetadata(n) => Counting(0) && metadata + n <= METADATA_LIMIT
         case Owing(n, over) => Counting(n) && (over ==> size == 0 && reserved == n)
         case Returned(n, over) => Counting(n) && (over ==> size == 0 && reserved == n)
    }

    /** What the budget counts for this body and the body's own counter does not yet. */
    ghost function InFlight(): int
      reads this
    {
      if phase.Granted? then |phase.p| else if phase.GrantedMetadata? then phase.n else if phase.Returned? then 0 - phase.n else 0
    }

    /** The bytes the budget counts for this body. */
    ghost function Share(): (n: nat)
      requires Steady()
      reads this
    {
      reserved + InFlight()
    }

    ghost predicate Valid() reads this { Steady() && phase == Resting }

    /** The bytes other responses hold. */
    ghost function Others(): int reads this, budget { budget.used - reserved - InFlight() }

    ghost predicate Amid() reads this, budget { Steady() && budget.Valid() && Others() >= 0 }

    ghost predicate Sharing() reads this, budget { Amid() && phase == Resting }

    constructor (budget: Budget)
      requires budget.Valid()
      ensures Sharing() && this.budget == budget && accepted == [] && reserved == 0 && metadata == 0 && file.NoFile? && !validated
    {
      memory, file, size, reserved, metadata, validated, phase, accepted := [], NoFile, 0, 0, 0, false, Resting, [];
      this.budget := budget;
    }

    // ---- steps, at most one budget call in each ------------------------------------------

    /** A write asks for its bytes. */
    method AskWrite(p: seq<Byte>) returns (ok: bool)
      requires Sharing()
      modifies this`phase, budget
      ensures Amid() && Others() == old(Others()) && (ok <==> old(size + |p| <= BODY_LIMIT && budget.used + |p| <= budget.limit))
      ensures phase == if ok then Granted(p) else Resting
    {
      if |p| > BODY_LIMIT - size { return false; }
      ok := budget.Reserve(|p|);
      if ok { phase := Granted(p); }
    }

    /** The write counts them and stages what it can; the rest is due back. */
    method StageWrite(disk: Disk) returns (n: nat, failed: bool)
      requires Amid() && phase.Granted?
      modifies this
      ensures Amid() && Others() == old(Others()) && metadata == old(metadata) && phase.Owing? && !phase.over && !validated
      ensures n <= |old(phase).p| && (n < |old(phase).p| ==> failed)
      ensures accepted == old(accepted) + old(phase).p[..n] || (failed && n == 0 && accepted == [] && reserved == phase.n)
    {
      var p := phase.p;
      reserved := reserved + |p|;
      validated := false;
      if file.NoFile? && |memory| + |p| <= MEMORY_LIMIT {
        memory := memory + p;
        size := size + |p|;
        accepted := accepted + p;
        phase := Owing(0, false);
        assert p[..|p|] == p;
        return |p|, false;
      }
      if file.NoFile? {
        if !disk.creates {
          phase := Owing(|p|, false);
          return 0, true;
        }
        if !disk.spills {
          Drop(false);
          return 0, true;
        }
        file := File(memory, |memory|);
        memory := [];
      }
      n, failed := StageFile(p, disk.takes);
    }

    /** The file write at the end of a body write. */
    method StageFile(p: seq<Byte>, takes: nat) returns (n: nat, failed: bool)
      requires Holding() && Counting(|p|) && size + |p| <= BODY_LIMIT && file.File? && !validated
      modifies this`file, this`size, this`accepted, this`phase
      ensures n <= |p| && Steady() && phase == Owing(|p| - n, false) && (failed <==> n < |p|) && accepted == old(accepted) + p[..n]
    {
      n := Least(takes, |p|);
      failed := n < |p|;
      file := File(Overwritten(file.bytes, file.pos, p[..n]), file.pos + n);
      size := size + n;
      accepted := accepted + p[..n];
      phase := Owing(|p| - n, false);
    }

    /** Reset and Close drop everything; all that is counted is due back. */
    method Drop(over: bool)
      requires metadata <= METADATA_LIMIT
      modifies this
      ensures Steady() && phase == Owing(reserved, over) && accepted == [] && file.NoFile? && !validated
      ensures reserved == old(reserved) && metadata == old(metadata)
    {
      memory, file, size, validated, accepted := [], NoFile, 0, false, [];
      phase := Owing(reserved, over);
    }

    method AskMetadata(n: nat) returns (ok: bool)
      requires Sharing()
      modifies this`phase, budget
      ensures Amid() && Others() == old(Others()) && (ok <==> old(metadata + n <= METADATA_LIMIT && budget.used + n <= budget.limit))
      ensures phase == if ok then GrantedMetadata(n) else Resting
    {
      if n > METADATA_LIMIT - metadata { return false; }
      ok := budget.Reserve(n);
      if ok { phase := GrantedMetadata(n); }
    }

    method CountMetadata()
      requires Amid() && phase.GrantedMetadata?
      modifies this`reserved, this`metadata, this`phase
      ensures Sharing() && Others() == old(Others()) && metadata == old(metadata) + old(phase).n && reserved == old(reserved) + old(phase).n
    {
      reserved := reserved + phase.n;
      metadata := metadata + phase.n;
      phase := Resting;
    }

    /** Bytes due back go back; nothing is released for none. */
    method GiveBack()
      requires Amid() && phase.Owing?
      modifies this`phase, this`metadata, budget
      ensures Amid() && Others() == old(Others()) && phase == if old(phase).n == 0 then Resting else Returned(old(phase).n, old(phase).over)
      ensures metadata == if old(phase).n == 0 && old(phase).over then 0 else old(metadata)
    {
      if phase.n == 0 {
        if phase.over { metadata := 0; }
        phase := Resting;
        return;
      }
      budget.Release(phase.n);
      phase := Returned(phase.n, phase.over);
    }

    method CountReturn()
      requires Amid() && phase.Returned?
      modifies this`reserved, this`phase, this`metadata
      ensures Sharing() && Others() == old(Others()) && reserved == old(reserved) - old(phase).n && metadata == if old(phase).over then 0 else old(metadata)
    {
      reserved := reserved - phase.n;
      if phase.over { metadata := 0; }
      phase := Resting;
    }

    // ---- whole operations --------------------------------------------------------------------

    method ReleaseReserved()
      requires Amid() && phase.Owing?
      modifies this`reserved, this`phase, this`metadata, budget
      ensures Sharing() && Others() == old(Others()) && reserved == old(reserved) - old(phase).n && metadata == if old(phase).over then 0 else old(metadata)
    {
      GiveBack();
      if phase != Resting { CountReturn(); }
    }

    method Write(p: seq<Byte>, disk: Disk) returns (n: nat, failed: bool)
      requires Sharing()
      modifies this, budget
      ensures Sharing() && Others() == old(Others()) && metadata == old(metadata)
      ensures n <= |p| && (n < |p| ==> failed) && (failed || !validated) && (validated ==> old(validated))
      ensures accepted == old(accepted) + p[..n] || (failed && n == 0 && accepted == [] && reserved == 0)
      ensures old(size + |p| > BODY_LIMIT || budget.used + |p| > budget.limit) ==>
                failed && accepted == old(accepted) && reserved == old(reserved)
    {
      var ok := AskWrite(p);
      if !ok { return 0, true; }
      n, failed := StageWrite(disk);
      ReleaseReserved();
    }

    /** Reset and Close: all bytes go back. */
    method Clear()
      requires Sharing()
      modifies this, budget
      ensures Sharing() && Others() == old(Others()) && metadata == old(metadata)
      ensures accepted == [] && reserved == 0 && file.NoFile? && !validated
    {
      Drop(false);
      ReleaseReserved();
    }

    /** The spool, if there is one, reads back as many bytes as were accepted. */
    ghost predicate Readable(back: Readback)
      reads this
    {
      file.NoFile? || validated || (back.seeks && !back.breaks && back.rewinds && Least(back.gives, |file.bytes|) == size)
    }

    /** Reading a spool back before anything depends on it. */
    method Validate(back: Readback) returns (failed: bool)
      requires Valid()
      modifies this`file, this`validated
      ensures Valid()
      ensures !failed ==> Staged() == accepted && (file.File? ==> validated && (old(validated) || file.pos == 0))
      ensures (failed <==> !old(Readable(back))) && (failed ==> file.File? && !validated)
      ensures old(file.NoFile?) <==> file.NoFile?
      ensures old(validated) ==> file == old(file)
    {
      if file.NoFile? || validated { return false; }
      if !back.seeks { return true; }
      var n := Least(back.gives, |file.bytes|);
      file := file.(pos := n);
      if back.breaks || n != size { return true; }
      if !back.rewinds { return true; }
      file := file.(pos := 0);
      validated := true;
      return false;
    }

    /** Sending the staged bytes to a client that takes some of them. */
    method FlushTo(back: Readback, takes: nat) returns (out: seq<Byte>, failed: bool)
      requires Valid()
      modifies this`file, this`validated
      ensures Valid()
      ensures old(!validated || file.NoFile? || file.pos == 0) ==> out <= accepted && (!failed ==> out == accepted)
    {
      if file.NoFile? {
        out := memory[..Least(takes, |memory|)];
        return out, |out| != |memory|;
      }
      var bad := Validate(back);
      if bad { return [], true; }
      var rest := file.bytes[file.pos..];
      out := rest[..Least(takes, |rest|)];
      file := file.(pos := file.pos + |out|);
      return out, |out| != |rest|;
    }

    /** Metadata shares the budget but not the body's cap. */
    method ReserveMetadata(n: nat) returns (ok: bool)
      requires Sharing()
      modifies this, budget
      ensures Sharing() && Others() == old(Others()) && unchanged(`accepted, `file, `size, `validated)
      ensures ok <==> old(metadata + n <= METADATA_LIMIT && budget.used + n <= budget.limit)
      ensures metadata == old(metadata) + (if ok then n else 0) && reserved == old(reserved) + (if ok then n else 0)
    {
      ok := AskMetadata(n);
      if ok { CountMetadata(); }
    }

    /** What an upgrade leaves of the staging: nothing. */
    method ReleaseAll()
      requires Sharing()
      modifies this, budget
      ensures Sharing() && Others() == old(Others()) && accepted == [] && !validated && reserved == 0 && metadata == 0
    {
      Drop(true);
      ReleaseReserved();
    }
  }

  function Joined(chunks: seq<seq<Byte>>): seq<Byte> {
    if chunks == [] then [] else Joined(chunks[..|chunks| - 1]) + chunks[|chunks| - 1]
  }

  /** Staging refines a byte sequence: for any chunking, any spill point and any I/O
      behaviour, a response whose writes, validation and flush succeed sends exactly
      the bytes written; one that fails sends a prefix of them. */
  method StageAndFlush(body: Body, chunks: seq<seq<Byte>>, disks: seq<Disk>, back: Readback, takes: nat)
    returns (out: seq<Byte>, failed: bool)
    requires body.Sharing() && body.accepted == [] && !body.validated && |disks| == |chunks|
    modifies body, body.budget
    ensures out <= Joined(chunks) && (!failed ==> out == Joined(chunks))
  {
    for i := 0 to |chunks|
      invariant body.Sharing() && body.accepted == Joined(chunks[..i]) && !body.validated
    {
      assert chunks[..i + 1][..i] == chunks[..i];
      var n, bad := body.Write(chunks[i], disks[i]);
      if bad { return [], true; }
      assert chunks[i][..n] == chunks[i];
    }
    assert chunks[..|chunks|] == chunks;
    var bad := body.Validate(back);
    if bad { return [], true; }
    out, failed := body.FlushTo(back, takes);
  }

  // ---- many responses, one budget -------------------------------------------------------

  function Sum(s: seq<nat>): nat { if s == [] then 0 else s[0] + Sum(s[1..]) }

  lemma {:induction false} SumUpdate(s: seq<nat>, i: nat, v: nat)
    requires i < |s|
    ensures Sum(s[i := v]) == Sum(s) - s[i] + v
  {
    if i == 0 {
      assert s[i := v][1..] == s[1..];
    } else {
      SumUpdate(s[1..], i - 1, v);
      assert s[i := v][1..] == s[1..][i - 1 := v];
    }
  }

  lemma {:induction false} SumBounds(s: seq<nat>, i: nat)
    requires i < |s|
    ensures s[i] <= Sum(s)
  {
    if i > 0 { SumBounds(s[1..], i - 1); }
  }

  ghost function Shares(bodies: seq<Body>): (r: seq<nat>)
    requires forall b <- bodies :: b.Steady()
    reads bodies
    ensures |r| == |bodies| && forall i :: 0 <= i < |bodies| ==> r[i] == bodies[i].Share()
  {
    if bodies == [] then [] else Shares(bodies[..|bodies| - 1]) + [bodies[|bodies| - 1].Share()]
  }

  /** Distinct responses in flight, each between two of its calls on the budget: what
      they hold and what is in flight make up the whole budget in use, which is within
      its limit, and each is within its own caps. */
  ghost predicate Pool(budget: Budget, bodies: seq<Body>)
    reads budget, bodies
  {
    && budget.Valid() && (forall b <- bodies :: b.budget == budget && b.Steady())
    && (forall i, j :: 0 <= i < j < |bodies| ==> bodies[i] != bodies[j])
    && budget.used == Sum(Shares(bodies))
  }

  /** What a response may begin, or the next step of what it has begun. An upgrade clears
      the staging for good and may reserve metadata anew afterwards. */
  datatype Move =
    | BeginWrite(p: seq<Byte>) | BeginMetadata(n: nat) | BeginClear(over: bool)
    | Check(back: Readback) | Send(back: Readback, takes: nat) | Proceed(disk: Disk)

  /** Steps an operation has left at most. */
  function Left(phase: Phase): nat {
    match phase case Resting => 0 case Granted(_) => 3 case GrantedMetadata(_) => 1 case Owing(_, _) => 2 case Returned(_, _) => 1
  }

  /** One step of one response: an operation begins only when the last one is done. */
  method Advance(b: Body, move: Move)
    requires b.Amid()
    modifies b, b.budget
    ensures b.Amid() && b.Others() == old(b.Others())
    ensures move.Proceed? && old(b.phase != Resting) ==> Left(b.phase) < Left(old(b.phase))
    ensures move.BeginWrite? && old(b.phase) == Resting ==>
              b.phase == if old(b.size + |move.p| <= BODY_LIMIT && b.budget.used + |move.p| <= b.budget.limit) then Granted(move.p) else Resting
  {
    match b.phase {
      case Resting =>
        match move {
          case BeginWrite(p) => var _ := b.AskWrite(p);
          case BeginMetadata(n) => var _ := b.AskMetadata(n);
          case BeginClear(over) => b.Drop(over);
          case Check(back) => var _ := b.Validate(back);
          case Send(back, takes) => var _, _ := b.FlushTo(back, takes);
          case Proceed(_) =>
        }
      case Granted(_) => if move.Proceed? { var _, _ := b.StageWrite(move.disk); }
      case GrantedMetadata(_) => if move.Proceed? { b.CountMetadata(); }
      case Owing(_, _) => if move.Proceed? { b.GiveBack(); }
      case Returned(_, _) => if move.Proceed? { b.CountReturn(); }
    }
  }

  /** A step of one response, whatever the others are in the middle of, keeps the pool. */
  method Perform(budget: Budget, bodies: seq<Body>, i: nat, move: Move)
    requires Pool(budget, bodies) && i < |bodies|
    modifies budget, bodies[i]
    ensures Pool(budget, bodies)
  {
    var b := bodies[i];
    ghost var before := Shares(bodies);
    SumBounds(before, i);
    Advance(b, move);
    SumUpdate(before, i, b.Share());
    assert Shares(bodies) == before[i := b.Share()];
  }

  /** Budget conservation: along every schedule of such steps, under every I/O failure,
      the budget in use is what the responses hold and what is in flight. */
  method Interleave(budget: Budget, bodies: seq<Body>, schedule: seq<(nat, Move)>)
    requires Pool(budget, bodies) && forall step <- schedule :: step.0 < |bodies|
    modifies budget, bodies
    ensures Pool(budget, bodies)
  {
    for k := 0 to |schedule|
      invariant Pool(budget, bodies)
    {
      assert schedule[k] in schedule;
      Perform(budget, bodies, schedule[k].0, schedule[k].1);
    }
  }

  ghost function Counters(bodies: seq<Body>): seq<nat>
    reads bodies
  {
    if bodies == [] then [] else Counters(bodies[..|bodies| - 1]) + [bodies[|bodies| - 1].reserved]
  }

  /** When no operation is in progress, the budget in use is the sum of the counters. */
  lemma AtRest(budget: Budget, bodies: seq<Body>)
    requires Pool(budget, bodies) && forall b <- bodies :: b.phase == Resting
    ensures budget.used == Sum(Counters(bodies))
  {
    SameAtRest(bodies);
  }

  lemma {:induction false} SameAtRest(bodies: seq<Body>)
    requires forall b <- bodies :: b.Steady() && b.phase == Resting
    ensures Shares(bodies) == Counters(bodies)
  {
    if bodies != [] { SameAtRest(bodies[..|bodies| - 1]); }
  }

  method Finish(b: Body, disk: Disk)
    requires b.Amid()
    modifies b, b.budget
    ensures b.Sharing() && b.Others() == old(b.Others()) && b.reserved == 0
  {
    if b.phase.Granted? { var _, _ := b.StageWrite(disk); }
    if b.phase.GrantedMetadata? { b.CountMetadata(); }
    if b.phase.Owing? { b.ReleaseReserved(); }
    if b.phase.Returned? { b.CountReturn(); }
    b.Clear();
  }

  /** A response finishes what it has begun and is closed: it holds nothing any more. */
  method Close(budget: Budget, bodies: seq<Body>, i: nat, disk: Disk)
    requires Pool(budget, bodies) && i < |bodies|
    modifies budget, bodies[i]
    ensures Pool(budget, bodies) && bodies[i].phase == Resting && bodies[i].reserved == 0
  {
    var b := bodies[i];
    ghost var before := Shares(bodies);
    SumBounds(before, i);
    Finish(b, disk);
    SumUpdate(before, i, b.Share());
    assert Shares(bodies) == before[i := b.Share()];
  }

  /** Once every response is closed the whole budget is free again. */
  method CloseAll(budget: Budget, bodies: seq<Body>, disk: Disk)
    requires Pool(budget, bodies)
    modifies budget, bodies
    ensures Pool(budget, bodies) && budget.used == 0
  {
    for i := 0 to |bodies|
      invariant Pool(budget, bodies) && forall j :: 0 <= j < i ==> bodies[j].phase == Resting && bodies[j].reserved == 0
    {
      Close(budget, bodies, i, disk);
    }
    SumOfZeros(Shares(bodies));
  }

  lemma {:induction false} SumOfZeros(s: seq<nat>)
    requires forall i :: 0 <= i < |s| ==> s[i] == 0
    ensures Sum(s) == 0
  {
    if s != [] { SumOfZeros(s[1..]); }
  }
}
