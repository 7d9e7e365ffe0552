/** The hot-patch code itself: it overwrites code bytes in place, keeps a bounded list of saved
    bytes, and restores them in reverse order (hotfix/replace.h). */
module HotPatch {
  import opened Utf8
  import opened PatchLog

  /** User-space addresses of a 64-bit process end here. */
  const ADDRESS_SPACE := 0x8000_0000_0000

  predicate PagesIn(at: nat, pages: set<nat>) {
    forall i | at <= i < at + WINDOW :: i / PAGE_SIZE in pages
  }

  /** The pages that the window at this address touches. */
  function Touched(at: nat): set<nat> { set i | at <= i < at + WINDOW :: i / PAGE_SIZE }

  /** The pages of every listed window may be written. */
  predicate Writable(log: seq<Saved>, pages: set<nat>) {
    forall i | 0 <= i < |log| :: PagesIn(log[i].at, pages)
  }

  lemma WritableNext(log: seq<Saved>, pages: set<nat>, pages': set<nat>, s: Saved)
    requires Writable(log, pages) && pages <= pages' && PagesIn(s.at, pages')
    ensures Writable(log, pages') && Writable(log + [s], pages')
  {
    forall i | 0 <= i < |log| ensures PagesIn(log[i].at, pages') { assert PagesIn(log[i].at, pages); }
  }

  /** Memory and the log are what the patches have made of the initial memory. */
  predicate Made(initial: Bytes, patches: seq<Patch>, now: Bytes, log: seq<Saved>) {
    && AllFit(patches, |initial|)
    && Some(now) == Some(Memory(initial, patches)) && Some(log) == Some(Log(initial, patches))
  }

  lemma MadeNext(initial: Bytes, patches: seq<Patch>, now: Bytes, log: seq<Saved>, p: Patch)
    requires Made(initial, patches, now, log) && Fits(p.at, |initial|)
    ensures p.at + WINDOW <= |now|
    ensures Made(initial, patches + [p], Overwrite(now, p.at, Jump(p.target)),
                 if p.save then log + [Saved(p.at, now[p.at..p.at + WINDOW])] else log)
  {
    assert (patches + [p])[..|patches + [p]| - 1] == patches;
    assert Log(initial, patches) + [] == Log(initial, patches);
  }

  lemma MadeNothing(now: Bytes)
    ensures Made(now, [], now, [])
  {
  }

  /** A process: its memory from address 0, the pages that may be written, the list of saved
      bytes and its count, and whether a patch library is open. */
  class Process {
    const memory: array<byte>
    const patched: array<Saved>
    var writable: set<nat>
    var count: nat
    var handler: bool
    /** What memory and the list hold. */
    ghost var now: Bytes
    ghost var log: seq<Saved>
    /** Memory when the list was last empty, and the patches made since. */
    ghost var initial: Bytes
    ghost var patches: seq<Patch>

    ghost predicate Mirrored()
      reads this, memory, patched
    {
      && memory.Length % PAGE_SIZE == 0 && memory.Length <= ADDRESS_SPACE
      && patched.Length == MAX_PATCHES && count <= MAX_PATCHES
      && Some(now) == Some(memory[..]) && Some(log) == Some(patched[..count])
    }

    /** Memory and the list are what the patches since then have made of them, and the pages of
        every listed window may be written. */
    ghost predicate Valid()
      reads this, memory, patched
    {
      && Mirrored() && |initial| == memory.Length && Made(initial, patches, now, log)
      && Writable(log, writable)
    }

    constructor (size: nat)
      requires size % PAGE_SIZE == 0 && size <= ADDRESS_SPACE
      ensures Valid() && fresh(memory) && fresh(patched) && memory.Length == size
      ensures count == 0 && !handler && patches == [] && initial == memory[..]
    {
      memory := new byte[size];
      patched := new Saved[MAX_PATCHES](i => Saved(0, []));
      writable, count, handler, patches, log := {}, 0, false, [], [];
      new;
      initial, now := memory[..], memory[..];
    }

    /** mprotect with write permission; it refuses an unaligned or unmapped range. */
    method Mprotect(page: nat, size: nat) returns (ok: bool)
      modifies this`writable
      ensures ok <==> page % PAGE_SIZE == 0 && page + size <= memory.Length
      ensures writable == if ok then old(writable) + (set i | page <= i < page + size :: i / PAGE_SIZE)
                          else old(writable)
    {
      ok := page % PAGE_SIZE == 0 && page + size <= memory.Length;
      if ok { writable := writable + (set i | page <= i < page + size :: i / PAGE_SIZE); }
    }

    /** memcpy into code: every page it touches must be writable. */
    method Memcpy(at: nat, w: Bytes)
      requires Mirrored() && |w| == WINDOW && Fits(at, memory.Length) && PagesIn(at, writable)
      modifies this`now, memory
      ensures Mirrored() && now == Overwrite(old(now), at, w)
    {
      forall i | 0 <= i < WINDOW { memory[at + i] := w[i]; }
      now := Overwrite(now, at, w);
      assert memory[..] == now && patched[..count] == log;
    }

    /** Make the window's pages writable, and no others. */
    method Unprotect(at: nat)
      requires Fits(at, memory.Length) && memory.Length % PAGE_SIZE == 0 && memory.Length <= ADDRESS_SPACE
      modifies this`writable
      ensures PagesIn(at, writable) && writable == old(writable) + Touched(at)
    {
      var pageAlign := PageBase(at);
      PagesCoverWindow(at);
      var pages := if (at + WINDOW) % WORD > (pageAlign + PAGE_SIZE) % WORD then 2 else 1;
      OnlyTouched(at);
      var ok := Mprotect(pageAlign, PAGE_SIZE * pages);
      assert ok by { LastPage(at, memory.Length); }
    }

    /** The saving branch: keep the bytes of the window in the list. */
    method SaveOld(at: nat)
      requires Mirrored() && Fits(at, memory.Length) && count < MAX_PATCHES
      modifies this`count, this`log, patched
      ensures Mirrored() && count == old(count) + 1
      ensures log == old(log) + [Saved(at, now[at..at + WINDOW])]
    {
      patched[count] := Saved(at, memory[at..at + WINDOW]);
      log, count := log + [patched[count]], count + 1;
      assert patched[..count] == log;
    }

    method BuildJmpDirective(at: nat, target: Address, save: bool)
      requires Valid() && Fits(at, memory.Length) && (save ==> count < MAX_PATCHES)
      modifies this`writable, this`count, this`now, this`log, this`patches, memory, patched
      ensures Valid() && patches == old(patches) + [Patch(at, target, save)]
      ensures count == old(count) + (if save then 1 else 0)
      ensures now == Overwrite(old(now), at, Jump(target))
      ensures writable == old(writable) + Touched(at)
    {
      var buf := Jump(target);
      ghost var p := Patch(at, target, save);
      MadeNext(initial, patches, now, log, p);
      Unprotect(at);
      WritableNext(log, old(writable), writable, Saved(at, now[at..at + WINDOW]));
      if save { SaveOld(at); }
      Memcpy(at, buf);
      patches := patches + [p];
    }

    /** The function to patch is `at`, or 0 if its name did not resolve. */
    method Replace(at: Address, target: Address) returns (code: int)
      requires Valid() && (at != 0 ==> Fits(at, memory.Length))
      modifies this`writable, this`count, this`now, this`log, this`patches, memory, patched
      ensures Valid()
      ensures code == if target == 0 then -1 else if old(count) >= MAX_PATCHES then -99
                      else if at == 0 then -2 else if at == target then -3 else 0
      ensures code == 0 ==> patches == old(patches) + [Patch(at, target, true)] && count == old(count) + 1
      ensures code == 0 ==> memory[..] == Overwrite(old(memory[..]), at, Jump(target))
      ensures code != 0 ==> patches == old(patches) && count == old(count) && memory[..] == old(memory[..])
      ensures writable == old(writable) + if code == 0 then Touched(at) else {}
    {
      if target == 0 { return -1; }
      if count >= MAX_PATCHES { return -99; }
      if at == 0 { return -2; }
      if at == target { return -3; }
      BuildJmpDirective(at, target, true);
      return 0;
    }

    /** Patch a function of the loaded library with one of the main program, found by name. */
    method ReplacePatchFuncNew(at: Address, named: bool, target: Address) returns (code: int)
      requires Valid() && (at != 0 ==> Fits(at, memory.Length))
      modifies this`writable, this`count, this`now, this`log, this`patches, memory, patched
      ensures Valid() && count == old(count)
      ensures code == if !named then -1 else if target == 0 then -2 else if !handler || at == 0 then -3
                      else if at == target then -4 else 0
      ensures patches == old(patches) + if code == 0 then [Patch(at, target, false)] else []
      ensures memory[..] == if code == 0 then Overwrite(old(memory[..]), at, Jump(target)) else old(memory[..])
      ensures writable == old(writable) + if code == 0 then Touched(at) else {}
    {
      if !named { return -1; }
      if target == 0 { return -2; }
      if !handler || target == 0 || at == 0 { return -3; }
      if at == target { return -4; }
      BuildJmpDirective(at, target, false);
      return 0;
    }

    /** The same with the target given, and the function found by name, by absolute address, or by
        an offset into a mapped file whose base may be missing. */
    method ReplacePatchFuncWithAddr(at: Address, mapped: bool, target: Address) returns (code: int)
      requires Valid() && (at != 0 ==> Fits(at, memory.Length))
      modifies this`writable, this`count, this`now, this`log, this`patches, memory, patched
      ensures Valid() && count == old(count)
      ensures code == if !handler || target == 0 then -4 else if !mapped then -7 else if at == 0 then -5
                      else if at == target then -6 else 0
      ensures patches == old(patches) + if code == 0 then [Patch(at, target, false)] else []
      ensures memory[..] == if code == 0 then Overwrite(old(memory[..]), at, Jump(target)) else old(memory[..])
      ensures writable == old(writable) + if code == 0 then Touched(at) else {}
    {
      if !handler || target == 0 { return -4; }
      if !mapped { return -7; }
      if at == 0 { return -5; }
      if at == target { return -6; }
      BuildJmpDirective(at, target, false);
      return 0;
    }

    /** The loop of restore. Every byte it writes lies in a page that a patch made writable. */
    method PutBack()
      requires Mirrored() && LogFits(log, memory.Length) && Writable(log, writable)
      modifies this`now, memory
      ensures Mirrored() && Some(now) == Some(Restored(old(now), log))
    {
      var i := count - 1;
      assert log[..i + 1] == log;
      while i >= 0
        invariant -1 <= i < count && Mirrored()
        invariant Some(Restored(now, log[..i + 1])) == Some(Restored(old(now), log))
      {
        RestoreOne(now, log, i);
        var node := patched[i];
        assert node == patched[..count][i] == log[i];
        Memcpy(node.at, node.bytes);
        i := i - 1;
      }
    }

    /** Put the saved bytes back, the last ones first. Memory is as it was at first exactly when no
        unsaved patch had left a different byte in front of the first saved one; so it is if every
        patch was saved. */
    method Restore()
      requires Valid()
      modifies this`count, this`handler, this`now, this`log, this`initial, this`patches, memory
      ensures Valid() && count == 0 && !handler && patches == []
      ensures Some(memory[..]) == Some(AfterRestore(old(initial), old(patches)))
      ensures (forall p <- old(patches) :: p.save) ==> Some(memory[..]) == Some(old(initial))
      ensures Some(memory[..]) == Some(old(initial))
              <==> forall i | 0 <= i < |old(initial)| :: Harmless(old(initial), old(patches), i)
    {
      CleanSlate(initial, patches);
      PutBack();
      count, handler, log := 0, false, [];
      initial, patches := now, [];
      MadeNothing(now);
    }
  }

  lemma CleanSlate(m: Bytes, ps: seq<Patch>)
    requires AllFit(ps, |m|)
    ensures (forall p <- ps :: p.save) ==> Some(AfterRestore(m, ps)) == Some(m)
    ensures Some(AfterRestore(m, ps)) == Some(m) <==> forall i | 0 <= i < |m| :: Harmless(m, ps, i)
  {
    CleanSlateExact(m, ps);
    if forall p <- ps :: p.save { RestoreUndoesAll(m, ps); }
  }

  lemma RestoreOne(m: Bytes, log: seq<Saved>, i: nat)
    requires LogFits(log, |m|) && i < |log|
    ensures Some(Restored(m, log[..i + 1])) == Some(Restored(Overwrite(m, log[i].at, log[i].bytes), log[..i]))
  {
    assert log[..i + 1][..i] == log[..i];
  }

  /** In user space the base and the page count give exactly the pages the window touches. */
  lemma OnlyTouched(at: nat)
    requires at + WINDOW <= ADDRESS_SPACE
    ensures (set i | PageBase(at) <= i < PageBase(at) + PAGE_SIZE * PageCount(at) :: i / PAGE_SIZE) == Touched(at)
  {
    var (page, off) := (at / PAGE_SIZE, at % PAGE_SIZE);
    PagesCoverWindow(at);
    ByOffset(page, off);
    forall i | PageBase(at) <= i < PageBase(at) + PAGE_SIZE * PageCount(at)
      ensures i / PAGE_SIZE in Touched(at)
    {
      assert i / PAGE_SIZE == at / PAGE_SIZE || i / PAGE_SIZE == (at + WINDOW - 1) / PAGE_SIZE;
    }
  }

  lemma LastPage(at: nat, size: nat)
    requires Fits(at, size) && size % PAGE_SIZE == 0 && size <= ADDRESS_SPACE
    ensures PageBase(at) % PAGE_SIZE == 0 && PageBase(at) + PAGE_SIZE * PageCount(at) <= size
  {
    var page := at / PAGE_SIZE;
    assert PageBase(at) == PAGE_SIZE * page;
  }
}
