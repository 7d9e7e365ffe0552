/** Hot patches on memory, as functions: the jump that a patch writes, the log of saved bytes,
    and what restoring in reverse order leaves behind. */
module PatchLog {
  import opened Utf8
  import Sequences

  const WORD := 0x1_0000_0000_0000_0000
  const PAGE_SIZE := 4096
  /** The bytes of one patch: MOV rdx, imm64 and an indirect JMP. */
  const WINDOW := 12
  const MAX_PATCHES := 100

  type Address = a: int | 0 <= a < WORD

  // ---- the jump -----------------------------------------------------------------------

  function LittleEndian(n: nat, k: nat): (b: Bytes)
    ensures |b| == k
  {
    if k == 0 then [] else [n % 256] + LittleEndian(n / 256, k - 1)
  }

  function FromLittleEndian(b: Bytes): nat {
    if b == [] then 0 else b[0] + 256 * FromLittleEndian(b[1..])
  }

  function Power256(k: nat): nat { if k == 0 then 1 else 256 * Power256(k - 1) }

  lemma {:induction false} LittleEndianRoundTrip(n: nat, k: nat)
    requires n < Power256(k)
    ensures FromLittleEndian(LittleEndian(n, k)) == n
  {
    if k > 0 {
      LittleEndianRoundTrip(n / 256, k - 1);
      assert LittleEndian(n, k)[1..] == LittleEndian(n / 256, k - 1);
    }
  }

  lemma WordBytes()
    ensures Power256(8) == WORD
  {
    assert Power256(4) == 0x1_0000_0000;
    assert Power256(8) == 256 * 256 * 256 * 256 * Power256(4);
  }

  /** What buildJmpDirective writes. */
  function Jump(target: Address): (w: Bytes)
    ensures |w| == WINDOW
  {
    [0x48, 0xBA] + LittleEndian(target, 8) + [0xFF, 0xE2]
  }

  /** The target of a window that holds a jump. */
  function JumpTarget(w: Bytes): Option<nat> {
    if |w| == WINDOW && w[..2] == [0x48, 0xBA] && w[10..] == [0xFF, 0xE2] then Some(FromLittleEndian(w[2..10]))
    else None
  }

  lemma JumpRoundTrip(target: Address)
    ensures JumpTarget(Jump(target)) == Some(target)
  {
    WordBytes();
    LittleEndianRoundTrip(target, 8);
    assert Jump(target)[2..10] == LittleEndian(target, 8);
  }

  lemma Peel(b: Bytes, i: nat)
    requires i < |b|
    ensures FromLittleEndian(b[i..]) == b[i] + 256 * FromLittleEndian(b[i + 1..])
  {
    assert b[i..][1..] == b[i + 1..];
  }

  /** A move of eight bytes, the lowest first, into a register, and a jump there. */
  lemma JumpBytes(target: Address)
    ensures var w := Jump(target);
            && w[0] == 0x48 && w[1] == 0xBA && w[10] == 0xFF && w[11] == 0xE2
            && target as int == w[2] as int + 0x100 * w[3] as int + 0x1_0000 * w[4] as int + 0x100_0000 * w[5] as int
                + 0x1_0000_0000 * w[6] as int + 0x100_0000_0000 * w[7] as int
                + 0x1_0000_0000_0000 * w[8] as int + 0x100_0000_0000_0000 * w[9] as int
  {
    var b := LittleEndian(target, 8);
    WordBytes();
    LittleEndianRoundTrip(target, 8);
    assert b[0..] == b && b[8..] == [];
    Peel(b, 0); Peel(b, 1); Peel(b, 2); Peel(b, 3);
    Peel(b, 4); Peel(b, 5); Peel(b, 6); Peel(b, 7);
  }

  // ---- pages ----------------------------------------------------------------------------

  /** old_func & PAGE_MASK */
  function PageBase(f: Address): Address { f - f % PAGE_SIZE }

  /** The number of pages made writable, in 64-bit pointer arithmetic. */
  function PageCount(f: Address): nat {
    if (f + WINDOW) % WORD > (PageBase(f) + PAGE_SIZE) % WORD then 2 else 1
  }

  /** Clearing the low twelve bits is rounding down to a page. */
  lemma MaskAligns(f: bv64)
    ensures f & 0xFFFF_FFFF_FFFF_F000 == f - f % 0x1000
  {
  }

  /** By page and offset: the base, and the page of the window's last byte. */
  lemma ByOffset(page: nat, off: nat)
    requires off < PAGE_SIZE
    ensures (PAGE_SIZE * page + off) / PAGE_SIZE == page && (PAGE_SIZE * page + off) % PAGE_SIZE == off
    ensures (PAGE_SIZE * page + off + (WINDOW - 1)) / PAGE_SIZE == if off + WINDOW > PAGE_SIZE then page + 1 else page
  {
  }

  lemma PageOf(f: Address)
    ensures var page := f / PAGE_SIZE;
            PageBase(f) == PAGE_SIZE * page <= f < PAGE_SIZE * (page + 1) <= WORD
  {
  }

  /** The pages from the base cover the window, for every address. They are exactly the pages
      the window touches unless the window lies in the last page of the address space and does
      not end with it; the second page then lies outside. */
  lemma PagesCoverWindow(f: Address)
    requires f + WINDOW <= WORD
    ensures PageBase(f) <= f && f + WINDOW <= PageBase(f) + PAGE_SIZE * PageCount(f)
    ensures PageCount(f) == (f + WINDOW - 1) / PAGE_SIZE - f / PAGE_SIZE + 1
            <==> PageBase(f) + PAGE_SIZE < WORD || f + WINDOW == WORD
  {
    var (page, off) := (f / PAGE_SIZE, f - PageBase(f));
    PageOf(f);
    ByOffset(page, off);
  }

  // ---- memory and the log ------------------------------------------------------------------

  /** One call of buildJmpDirective: where, the new function, and whether the old bytes are saved. */
  datatype Patch = Patch(at: nat, target: Address, save: bool)

  /** struct node */
  datatype Saved = Saved(at: nat, bytes: Bytes)

  predicate Fits(at: nat, size: nat) { at + WINDOW <= size }

  predicate AllFit(ps: seq<Patch>, size: nat) { forall p <- ps :: Fits(p.at, size) }

  predicate LogFits(log: seq<Saved>, size: nat) { forall s <- log :: |s.bytes| == WINDOW && Fits(s.at, size) }

  function Overwrite(m: Bytes, at: nat, w: Bytes): (r: Bytes)
    requires at + |w| <= |m|
    ensures |r| == |m|
    ensures forall i | 0 <= i < |m| :: r[i] == if at <= i < at + |w| then w[i - at] else m[i]
  {
    m[..at] + w + m[at + |w|..]
  }

  /** Memory after a sequence of patches. */
  function Memory(m: Bytes, ps: seq<Patch>): (r: Bytes)
    requires AllFit(ps, |m|)
    ensures |r| == |m|
  {
    if ps == [] then m else
    var p := ps[|ps| - 1];
    Overwrite(Memory(m, ps[..|ps| - 1]), p.at, Jump(p.target))
  }

  /** The log after a sequence of patches: the bytes each saving patch found. */
  function Log(m: Bytes, ps: seq<Patch>): (log: seq<Saved>)
    requires AllFit(ps, |m|)
    ensures LogFits(log, |m|) && |log| <= |ps|
  {
    if ps == [] then [] else
    var (init, p) := (ps[..|ps| - 1], ps[|ps| - 1]);
    Log(m, init) + if p.save then [Saved(p.at, Memory(m, init)[p.at..p.at + WINDOW])] else []
  }

  /** restore: the saved bytes are put back, the last ones first. */
  function Restored(m: Bytes, log: seq<Saved>): (r: Bytes)
    requires LogFits(log, |m|)
    ensures |r| == |m|
    decreases |log|
  {
    if log == [] then m else
    var s := log[|log| - 1];
    Restored(Overwrite(m, s.at, s.bytes), log[..|log| - 1])
  }

  predicate Covers(at: nat, i: nat) { at <= i < at + WINDOW }

  /** Restoring changes the bytes that the log covers, and only those depend on the log. */
  lemma {:induction false} RestoredOutside(m: Bytes, m': Bytes, log: seq<Saved>, i: nat)
    requires |m| == |m'| && LogFits(log, |m|) && i < |m|
    ensures (forall s <- log :: !Covers(s.at, i)) ==> Restored(m, log)[i] == m[i]
    ensures (exists s <- log :: Covers(s.at, i)) || m[i] == m'[i] ==> Restored(m, log)[i] == Restored(m', log)[i]
    decreases log
  {
    if log != [] {
      var (init, s) := (log[..|log| - 1], log[|log| - 1]);
      assert log == init + [s];
      RestoredOutside(Overwrite(m, s.at, s.bytes), Overwrite(m', s.at, s.bytes), init, i);
    }
  }

  /** The first saving patch that covers a byte; the number of patches if there is none. */
  function FirstSave(ps: seq<Patch>, i: nat): (n: nat)
    ensures n <= |ps|
    ensures n < |ps| ==> ps[n].save && Covers(ps[n].at, i)
    ensures forall k | 0 <= k < n :: !(ps[k].save && Covers(ps[k].at, i))
    decreases |ps|
  {
    if ps == [] then 0 else
    var (init, p) := (ps[..|ps| - 1], ps[|ps| - 1]);
    var n := FirstSave(init, i);
    if n < |init| || (p.save && Covers(p.at, i)) then n else |ps|
  }

  lemma {:induction false} LogCovers(m: Bytes, ps: seq<Patch>, i: nat)
    requires AllFit(ps, |m|)
    ensures (exists s <- Log(m, ps) :: Covers(s.at, i)) <==> FirstSave(ps, i) < |ps|
    decreases ps
  {
    if ps != [] {
      var (init, p) := (ps[..|ps| - 1], ps[|ps| - 1]);
      LogCovers(m, init, i);
      if p.save {
        var s := Saved(p.at, Memory(m, init)[p.at..p.at + WINDOW]);
        assert Log(m, ps) == Log(m, init) + [s] && s in Log(m, ps);
      } else {
        assert Log(m, ps) == Log(m, init);
      }
    }
  }

  /** Putting back the bytes just saved undoes the patch. */
  lemma RestoreLast(before: Bytes, log: seq<Saved>, p: Patch)
    requires Fits(p.at, |before|) && LogFits(log, |before|)
    ensures var s := Saved(p.at, before[p.at..p.at + WINDOW]);
            Restored(Overwrite(before, p.at, Jump(p.target)), log + [s]) == Restored(before, log)
  {
    var s := Saved(p.at, before[p.at..p.at + WINDOW]);
    assert (log + [s])[..|log + [s]| - 1] == log;
    assert Overwrite(Overwrite(before, p.at, Jump(p.target)), s.at, s.bytes) == before;
  }

  /** Memory after all the patches and one restore. */
  function AfterRestore(m: Bytes, ps: seq<Patch>): (r: Bytes)
    requires AllFit(ps, |m|)
    ensures |r| == |m|
  {
    Restored(Memory(m, ps), Log(m, ps))
  }

  lemma AfterSaved(m: Bytes, ps: seq<Patch>)
    requires AllFit(ps, |m|) && ps != [] && ps[|ps| - 1].save
    ensures Some(AfterRestore(m, ps)) == Some(AfterRestore(m, ps[..|ps| - 1]))
  {
    var (init, p) := (ps[..|ps| - 1], ps[|ps| - 1]);
    RestoreLast(Memory(m, init), Log(m, init), p);
  }

  lemma AfterUnsaved(m: Bytes, ps: seq<Patch>, i: nat)
    requires AllFit(ps, |m|) && ps != [] && !ps[|ps| - 1].save && i < |m|
    ensures var init := ps[..|ps| - 1];
            AfterRestore(m, ps)[i] == if FirstSave(init, i) < |init| then AfterRestore(m, init)[i] else Memory(m, ps)[i]
  {
    var init := ps[..|ps| - 1];
    var log := Log(m, init);
    assert Some(Log(m, ps)) == Some(log) by { assert log + [] == log; }
    LogCovers(m, init, i);
    RestoredOutside(Memory(m, ps), Memory(m, init), log, i);
  }

  /** The byte in front of the first saving patch over it, with and without the last patch. */
  lemma UpToFirstSave(m: Bytes, ps: seq<Patch>, i: nat)
    requires AllFit(ps, |m|) && ps != [] && i < |m|
    ensures var (init, p) := (ps[..|ps| - 1], ps[|ps| - 1]);
            var (n, before) := (FirstSave(init, i), Memory(m, ps[..FirstSave(ps, i)])[i]);
            && before == (if n < |init| || p.save then Memory(m, init[..n])[i] else Memory(m, ps)[i])
            && (n == |init| ==> Memory(m, init[..n])[i] == Memory(m, init)[i])
  {
    var (init, p) := (ps[..|ps| - 1], ps[|ps| - 1]);
    var n := FirstSave(init, i);
    Sequences.InitTake(ps, n);
    MemoryLast(m, ps, i);
  }

  /** What restoring leaves, byte by byte, for every interleaving of saved and unsaved patches
      on windows that may repeat or overlap: the byte that stood there before the first saving
      patch covered it, and the current byte if none did. */
  lemma {:induction false} RestoreExact(m: Bytes, ps: seq<Patch>, i: nat)
    requires AllFit(ps, |m|) && i < |m|
    ensures AfterRestore(m, ps)[i] == Memory(m, ps[..FirstSave(ps, i)])[i]
    decreases |ps|
  {
    if ps == [] {
      assert ps[..0] == ps;
    } else {
      var (init, p) := (ps[..|ps| - 1], ps[|ps| - 1]);
      RestoreExact(m, init, i);
      UpToFirstSave(m, ps, i);
      if p.save { AfterSaved(m, ps); } else { AfterUnsaved(m, ps, i); }
    }
  }

  /** When every patch saves, restoring gives the initial memory, byte for byte. */
  lemma RestoreUndoesAll(m: Bytes, ps: seq<Patch>)
    requires AllFit(ps, |m|) && forall p <- ps :: p.save
    ensures AfterRestore(m, ps) == m
  {
    forall i | 0 <= i < |m| ensures AfterRestore(m, ps)[i] == m[i] {
      RestoreExact(m, ps, i);
      Untouched(m, ps[..FirstSave(ps, i)], i);
    }
  }

  lemma {:induction false} Untouched(m: Bytes, ps: seq<Patch>, i: nat)
    requires AllFit(ps, |m|) && i < |m| && forall p <- ps :: !Covers(p.at, i)
    ensures Memory(m, ps)[i] == m[i]
    decreases ps
  {
    if ps != [] { Untouched(m, ps[..|ps| - 1], i); }
  }

  function Unsaved(ps: seq<Patch>): (us: seq<Patch>)
    ensures forall p <- us :: p in ps && !p.save
  {
    if ps == [] then []
    else Unsaved(ps[..|ps| - 1]) + if ps[|ps| - 1].save then [] else [ps[|ps| - 1]]
  }

  /** Unsaved windows keep clear of the saved ones. */
  ghost predicate Clear(ps: seq<Patch>) {
    forall p, q | p in ps && q in ps && p.save && !q.save :: q.at + WINDOW <= p.at || p.at + WINDOW <= q.at
  }

  /** When unsaved patches keep clear of the saved windows, restoring leaves exactly them. */
  lemma RestoreKeepsUnsaved(m: Bytes, ps: seq<Patch>)
    requires AllFit(ps, |m|) && Clear(ps)
    ensures AfterRestore(m, ps) == Memory(m, Unsaved(ps))
  {
    forall i | 0 <= i < |m| ensures AfterRestore(m, ps)[i] == Memory(m, Unsaved(ps))[i] {
      RestoreExact(m, ps, i);
      UnsavedAt(m, ps, i);
    }
  }

  lemma UnsavedAt(m: Bytes, ps: seq<Patch>, i: nat)
    requires AllFit(ps, |m|) && Clear(ps) && i < |m|
    ensures Memory(m, ps[..FirstSave(ps, i)])[i] == Memory(m, Unsaved(ps))[i]
  {
    var n := FirstSave(ps, i);
    if n < |ps| {
      assert ps[n] in ps;
      assert forall q <- ps :: !q.save ==> !Covers(q.at, i);
      Untouched(m, ps[..n], i);
      Untouched(m, Unsaved(ps), i);
    } else {
      assert ps[..n] == ps;
      OnlyUnsaved(m, ps, i);
    }
  }

  lemma {:induction false} OnlyUnsaved(m: Bytes, ps: seq<Patch>, i: nat)
    requires AllFit(ps, |m|) && i < |m| && forall p <- ps :: !(p.save && Covers(p.at, i))
    ensures Memory(m, ps)[i] == Memory(m, Unsaved(ps))[i]
    decreases ps
  {
    if ps != [] {
      var (init, p) := (ps[..|ps| - 1], ps[|ps| - 1]);
      OnlyUnsaved(m, init, i);
      if p.save {
        assert Unsaved(ps) == Unsaved(init);
      } else {
        assert Unsaved(ps)[..|Unsaved(ps)| - 1] == Unsaved(init);
      }
    }
  }

  /** The last patch of an entry wins: if later patches keep clear of its window, the window
      decodes to its target. Bytes outside all windows never change. */
  lemma {:induction false} LastPatchWins(m: Bytes, ps: seq<Patch>, j: nat)
    requires AllFit(ps, |m|) && j < |ps|
    requires forall k | j < k < |ps| :: ps[k].at + WINDOW <= ps[j].at || ps[j].at + WINDOW <= ps[k].at
    ensures JumpTarget(Memory(m, ps)[ps[j].at..ps[j].at + WINDOW]) == Some(ps[j].target)
    decreases |ps|
  {
    var (init, last) := (ps[..|ps| - 1], ps[|ps| - 1]);
    var (at, now) := (ps[j].at, Memory(m, ps));
    assert last in ps && ps[j] in ps;
    if j == |ps| - 1 {
      assert now[at..at + WINDOW] == Jump(last.target);
      JumpRoundTrip(last.target);
    } else {
      LastPatchWins(m, init, j);
      assert now[at..at + WINDOW] == Memory(m, init)[at..at + WINDOW];
    }
  }

  // ---- as if nothing had happened ----------------------------------------------------------------

  /** The last patch that covers a byte; the number of patches if there is none. */
  function LastCover(ps: seq<Patch>, i: nat): (k: nat)
    ensures k <= |ps|
    ensures k < |ps| ==> Covers(ps[k].at, i)
    decreases |ps|
  {
    if ps == [] then 0 else
    var (init, p) := (ps[..|ps| - 1], ps[|ps| - 1]);
    var k := LastCover(init, i);
    if Covers(p.at, i) then |init| else if k < |init| then k else |ps|
  }

  lemma LastCoverLast(init: seq<Patch>, p: Patch, i: nat)
    ensures var (k, k') := (LastCover(init, i), LastCover(init + [p], i));
            if Covers(p.at, i) then k' == |init| else if k < |init| then k' == k else k' == |init| + 1
  {
    assert (init + [p])[..|init|] == init;
  }

  lemma {:induction false} LastCoverExact(ps: seq<Patch>, i: nat)
    ensures var k := LastCover(ps, i);
            forall j | 0 <= j < |ps| && (k == |ps| || j > k) :: !Covers(ps[j].at, i)
    decreases |ps|
  {
    if ps != [] { LastCoverExact(ps[..|ps| - 1], i); }
  }

  lemma MemoryLast(m: Bytes, ps: seq<Patch>, i: nat)
    requires AllFit(ps, |m|) && ps != [] && i < |m|
    ensures var (init, p) := (ps[..|ps| - 1], ps[|ps| - 1]);
            Memory(m, ps)[i] == if Covers(p.at, i) then Jump(p.target)[i - p.at] else Memory(m, init)[i]
  {
  }

  /** What the last patch over a byte wrote, or what stood there at first. */
  function LastWritten(m: Bytes, ps: seq<Patch>, i: nat): byte
    requires i < |m|
  {
    var k := LastCover(ps, i);
    if k < |ps| then Jump(ps[k].target)[i - ps[k].at] else m[i]
  }

  lemma LastWrittenMore(m: Bytes, init: seq<Patch>, p: Patch, i: nat)
    requires i < |m|
    ensures LastWritten(m, init + [p], i)
         == if Covers(p.at, i) then Jump(p.target)[i - p.at] else LastWritten(m, init, i)
  {
    LastCoverLast(init, p, i);
  }

  /** A byte of memory is that. */
  lemma {:induction false} MemoryAt(m: Bytes, ps: seq<Patch>, i: nat)
    requires AllFit(ps, |m|) && i < |m|
    ensures Memory(m, ps)[i] == LastWritten(m, ps, i)
    decreases |ps|
  {
    if ps != [] {
      var (init, p) := (ps[..|ps| - 1], ps[|ps| - 1]);
      MemoryAt(m, init, i);
      MemoryLast(m, ps, i);
      Sequences.InitLast(ps);
      LastWrittenMore(m, init, p, i);
    }
  }

  /** Of the patches over a byte before the first saved one, the last wrote what had stood there
      at first, or there is none. All of these are unsaved. */
  predicate Harmless(m: Bytes, ps: seq<Patch>, i: nat)
    requires i < |m|
  {
    LastWritten(m, ps[..FirstSave(ps, i)], i) == m[i]
  }

  /** Restoring leaves things as if nothing had happened exactly when no unsaved patch left a
      different byte in front of the first saved one. */
  lemma CleanSlateExact(m: Bytes, ps: seq<Patch>)
    requires AllFit(ps, |m|)
    ensures AfterRestore(m, ps) == m <==> forall i | 0 <= i < |m| :: Harmless(m, ps, i)
  {
    forall i | 0 <= i < |m| ensures AfterRestore(m, ps)[i] == m[i] <==> Harmless(m, ps, i) {
      RestoreExact(m, ps, i);
      MemoryAt(m, ps[..FirstSave(ps, i)], i);
    }
  }

  /** One unsaved patch on a page of zeroes is enough to break the promise, whatever two different
      functions it joins. */
  lemma NoCleanSlate(at: Address, target: Address)
    requires at != 0 && target != 0 && at != target && Fits(at, PAGE_SIZE)
    ensures var (m, ps) := (seq(PAGE_SIZE, _ => 0), [Patch(at, target, false)]);
            AllFit(ps, |m|) && AfterRestore(m, ps) != m
  {
    var (m: Bytes, ps) := (seq(PAGE_SIZE, _ => 0), [Patch(at, target, false)]);
    RestoreExact(m, ps, at);
    MemoryAt(m, ps, at);
    assert ps[..|ps|] == ps && ps[..0] == [];
    assert Memory(m, ps)[at] == 0x48;
  }

  /** An unsaved patch that no saved or later window overlaps is still in force after restoring. */
  lemma UnsavedSurvives(m: Bytes, ps: seq<Patch>, j: nat)
    requires AllFit(ps, |m|) && j < |ps|
    requires forall k | 0 <= k < |ps| && k != j && (ps[k].save || j < k) ::
               ps[k].at + WINDOW <= ps[j].at || ps[j].at + WINDOW <= ps[k].at
    requires !ps[j].save
    ensures JumpTarget(AfterRestore(m, ps)[ps[j].at..ps[j].at + WINDOW]) == Some(ps[j].target)
  {
    var (at, end) := (ps[j].at, ps[j].at + WINDOW);
    assert ps[j] in ps;
    forall i | at <= i < end ensures AfterRestore(m, ps)[i] == Memory(m, ps)[i] {
      RestoreExact(m, ps, i);
      assert ps[..|ps|] == ps;
    }
    assert AfterRestore(m, ps)[at..end] == Memory(m, ps)[at..end];
    LastPatchWins(m, ps, j);
  }
}
