/** The write-back page cache of db_lab/pager.h over one file. */
module PagerModel {

  import opened ByteStrings

  const PAGE_SIZE: nat := 4096
  const MAX_PAGES: nat := 0x4000_0000 / PAGE_SIZE

  /** `cached`: the entries of the page table that are not null. */
  datatype Pager = Pager(file: Bytes, cached: map<nat, Bytes>, numPages: nat)

  function Zeros(n: nat): (z: Bytes)
    ensures |z| == n && forall i :: 0 <= i < n ==> z[i] == 0
  {
    seq(n, _ => 0)
  }

  function ByteAt(file: Bytes, k: nat): Byte { if k < |file| then file[k] else 0 }

  /** A zeroed buffer after read(2) at page `num`: what the file lacks stays zero. */
  function FilePage(file: Bytes, num: nat): (p: Bytes)
    ensures |p| == PAGE_SIZE && forall i :: 0 <= i < PAGE_SIZE ==> p[i] == ByteAt(file, num * PAGE_SIZE + i)
  {
    seq<Byte>(PAGE_SIZE, i requires 0 <= i < PAGE_SIZE => ByteAt(file, num * PAGE_SIZE + i))
  }

  /** write(2) of one page: beyond the old end the file is filled up with zeros. */
  function Written(file: Bytes, num: nat, page: Bytes): (f: Bytes)
    requires |page| == PAGE_SIZE
    ensures |f| == if |file| < (num + 1) * PAGE_SIZE then (num + 1) * PAGE_SIZE else |file|
    ensures forall k :: 0 <= k < |f| ==>
              f[k] == if num * PAGE_SIZE <= k < (num + 1) * PAGE_SIZE then page[k - num * PAGE_SIZE]
                  else ByteAt(file, k)
  {
    seq<Byte>(if |file| < (num + 1) * PAGE_SIZE then (num + 1) * PAGE_SIZE else |file|, k requires 0 <= k =>
      if num * PAGE_SIZE <= k < (num + 1) * PAGE_SIZE then page[k - num * PAGE_SIZE] else ByteAt(file, k))
  }

  // ---- Operations ----

  /** Lines 18-31. A last, partial page of the file is not counted. */
  function Open(file: Bytes): Pager { Pager(file, map[], |file| / PAGE_SIZE) }

  /** Lines 50-70, 96-115: after GetPage the page is cached. */
  function GetPage(p: Pager, num: nat): Pager {
    if num in p.cached then p
    else if num < p.numPages then p.(cached := p.cached[num := FilePage(p.file, num)])
    else p.(cached := p.cached[num := Zeros(PAGE_SIZE)], numPages := num + 1)
  }

  /** The owner of the pager writes into a page that GetPage gave it. */
  function Fill(p: Pager, num: nat, page: Bytes): Pager { p.(cached := p.cached[num := page]) }

  /** The loop of Close from page `num` up to `end` (lines 36-47). */
  function Flushed(p: Pager, num: nat, end: nat): Pager
    requires num <= end && forall n :: n in p.cached ==> |p.cached[n]| == PAGE_SIZE
    decreases end - num
  {
    if num == end then p
    else if num in p.cached then
      Flushed(p.(file := Written(p.file, num, p.cached[num]), cached := p.cached - {num}), num + 1, end)
    else Flushed(p, num + 1, end)
  }

  function Close(p: Pager): Pager
    requires forall n :: n in p.cached ==> |p.cached[n]| == PAGE_SIZE
  {
    Flushed(p, 0, MAX_PAGES)
  }

  // ---- The pages a reader sees ----

  function Page(p: Pager, num: nat): Bytes {
    if num in p.cached then p.cached[num] else FilePage(p.file, num)
  }

  function View(p: Pager): seq<Bytes> { seq(p.numPages, n requires 0 <= n => Page(p, n)) }

  /** Cached pages are whole and are pages of the store; and if the file does not reach the last
      page, that page is cached and will be written. */
  ghost predicate Inv(p: Pager) {
    && p.numPages <= MAX_PAGES
    && (forall n :: n in p.cached ==> n < p.numPages && |p.cached[n]| == PAGE_SIZE)
    && |p.file| / PAGE_SIZE <= p.numPages
    && (|p.file| / PAGE_SIZE < p.numPages ==> p.numPages - 1 in p.cached)
  }

  lemma OpenInv(file: Bytes)
    requires |file| / PAGE_SIZE <= MAX_PAGES
    ensures Inv(Open(file))
  {
  }

  lemma GetPageInv(p: Pager, num: nat)
    requires Inv(p) && num < MAX_PAGES
    ensures Inv(GetPage(p, num))
  {
  }

  /** GetPage shows the caller the page, changes no page, and creates a page of zeros together
      with the pages before it when the number is new. */
  lemma GetPageView(p: Pager, num: nat)
    requires Inv(p) && num < MAX_PAGES
    ensures num in GetPage(p, num).cached && GetPage(p, num).cached[num] == View(GetPage(p, num))[num]
    ensures num < p.numPages ==> View(GetPage(p, num)) == View(p)
    ensures num >= p.numPages ==>
              View(GetPage(p, num)) ==
              (View(p) + seq(num - p.numPages, i requires 0 <= i => FilePage(p.file, p.numPages + i)))
                  + [Zeros(PAGE_SIZE)]
  {
  }

  lemma FillView(p: Pager, num: nat, page: Bytes)
    requires Inv(p) && num in p.cached && |page| == PAGE_SIZE
    ensures Inv(Fill(p, num, page)) && View(Fill(p, num, page)) == View(p)[num := page]
  {
  }

  // ---- Flushing ----

  lemma WrittenPage(file: Bytes, num: nat, page: Bytes, n: nat)
    requires |page| == PAGE_SIZE
    ensures FilePage(Written(file, num, page), n) == if n == num then page else FilePage(file, n)
  {
    var f := Written(file, num, page);
    forall i | 0 <= i < PAGE_SIZE
      ensures ByteAt(f, n * PAGE_SIZE + i) == if n == num then page[i] else ByteAt(file, n * PAGE_SIZE + i)
    {
    }
  }

  /** One turn of the loop: no page changes. */
  lemma FlushOne(p: Pager, num: nat)
    requires num in p.cached && |p.cached[num]| == PAGE_SIZE
    ensures var q := p.(file := Written(p.file, num, p.cached[num]), cached := p.cached - {num});
            forall n: nat :: Page(q, n) == Page(p, n)
  {
    forall n: nat
    {
      WrittenPage(p.file, num, p.cached[num], n);
    }
  }

  /** The loop leaves every page as it was, empties the cache, and lets the file reach to the
      last page that was cached. */
  lemma {:induction false} FlushedView(p: Pager, num: nat, end: nat)
    requires num <= end && forall n :: n in p.cached ==> num <= n < end && |p.cached[n]| == PAGE_SIZE
    ensures var q := Flushed(p, num, end);
            && q.cached == map[] && q.numPages == p.numPages
            && (forall n: nat :: Page(q, n) == Page(p, n))
            && |q.file| >= |p.file|
            && (forall n :: n in p.cached ==> |q.file| >= (n + 1) * PAGE_SIZE)
            && (|q.file| == |p.file| || exists n :: n in p.cached && |q.file| == (n + 1) * PAGE_SIZE)
    decreases end - num
  {
    hide Page, FilePage, ByteAt;
    if num < end {
      if num in p.cached {
        FlushOne(p, num);
        var r := p.(file := Written(p.file, num, p.cached[num]), cached := p.cached - {num});
        FlushedView(r, num + 1, end);
        assert |r.file| >= (num + 1) * PAGE_SIZE && |r.file| >= |p.file|;
        assert forall n :: n in p.cached ==> n == num || n in r.cached;
      } else {
        FlushedView(p, num + 1, end);
      }
    } else {
      assert forall n :: n !in p.cached;
    }
  }

  /** Closing writes everything back: the pages are the same, and opening the file again finds
      exactly them. */
  lemma CloseView(p: Pager)
    requires Inv(p)
    ensures Inv(Close(p)) && Close(p).cached == map[] && View(Close(p)) == View(p)
    ensures Open(Close(p).file) == Close(p)
  {
    hide Page, FilePage, ByteAt, Flushed;
    var q := Close(p);
    FlushedView(p, 0, MAX_PAGES);
    assert View(q) == View(p);
    ClosedLength(p, q);
  }

  lemma ClosedLength(p: Pager, q: Pager)
    requires Inv(p) && |q.file| >= |p.file|
    requires forall n :: n in p.cached ==> |q.file| >= (n + 1) * PAGE_SIZE
    requires |q.file| == |p.file| || exists n :: n in p.cached && |q.file| == (n + 1) * PAGE_SIZE
    ensures |q.file| / PAGE_SIZE == p.numPages
  {
    if |p.file| / PAGE_SIZE < p.numPages {
      assert p.numPages - 1 in p.cached;
    }
  }

  // ---- Runs ----

  datatype Op = Get(num: nat) | Put(num: nat, page: Bytes) | Shut | Reopen

  /** GetPage reports an error and goes on for a number above MAX_PAGES, and reads past the
      page table for MAX_PAGES itself; runs stay below. A page is written to only while it is
      cached. The file is reopened after it was closed. */
  predicate CanDo(p: Pager, op: Op) {
    match op
    case Get(num) => num < MAX_PAGES
    case Put(num, page) => num in p.cached && |page| == PAGE_SIZE
    case Shut => forall n :: n in p.cached ==> |p.cached[n]| == PAGE_SIZE
    case Reopen => p.cached == map[]
  }

  function Did(p: Pager, op: Op): Pager
    requires CanDo(p, op)
  {
    match op
    case Get(num) => GetPage(p, num)
    case Put(num, page) => Fill(p, num, page)
    case Shut => Close(p)
    case Reopen => Open(p.file)
  }

  /** The same operation on a list of pages that simply exists. */
  function Simple(pages: seq<Bytes>, op: Op): seq<Bytes> {
    match op
    case Get(num) =>
      if num < |pages| then pages else pages + seq(num + 1 - |pages|, _ => Zeros(PAGE_SIZE))
    case Put(num, page) => if num < |pages| then pages[num := page] else pages
    case Shut => pages
    case Reopen => pages
  }

  predicate IsRun(p: Pager, ops: seq<Op>)
    decreases |ops|
  {
    ops == [] || (CanDo(p, ops[0]) && IsRun(Did(p, ops[0]), ops[1..]))
  }

  function After(p: Pager, ops: seq<Op>): Pager
    requires IsRun(p, ops)
    decreases |ops|
  {
    if ops == [] then p else After(Did(p, ops[0]), ops[1..])
  }

  function SimpleAfter(pages: seq<Bytes>, ops: seq<Op>): seq<Bytes>
    decreases |ops|
  {
    if ops == [] then pages else SimpleAfter(Simple(pages, ops[0]), ops[1..])
  }

  /** Pages the store does not have yet are zero in the file. */
  ghost predicate BeyondZero(p: Pager) { forall k :: p.numPages * PAGE_SIZE <= k < |p.file| ==> p.file[k] == 0 }

  lemma ZeroPage(p: Pager, n: nat)
    requires BeyondZero(p) && n >= p.numPages
    ensures FilePage(p.file, n) == Zeros(PAGE_SIZE)
  {
    var page := FilePage(p.file, n);
    forall i | 0 <= i < PAGE_SIZE
      ensures page[i] == 0
    {
      assert page[i] == ByteAt(p.file, n * PAGE_SIZE + i);
    }
  }

  lemma GetSimple(p: Pager, num: nat)
    requires Inv(p) && BeyondZero(p) && num < MAX_PAGES
    ensures BeyondZero(GetPage(p, num)) && View(GetPage(p, num)) == Simple(View(p), Get(num))
  {
    GetPageView(p, num);
    var v, w := View(GetPage(p, num)), Simple(View(p), Get(num));
    forall n | 0 <= n < |v|
      ensures v[n] == w[n]
    {
      if p.numPages <= n < num {
        ZeroPage(p, n);
      }
    }
  }

  /** Skipping page numbers creates pages of zeros exactly when the file has no partial last
      page with something in it: the first page that is skipped would show it. */
  lemma SkippedZeroIff(file: Bytes, num: nat)
    requires |file| / PAGE_SIZE < num < MAX_PAGES
    ensures View(GetPage(Open(file), num)) == Simple(View(Open(file)), Get(num)) <==> BeyondZero(Open(file))
  {
    var p := Open(file);
    OpenInv(file);
    if BeyondZero(p) {
      GetSimple(p, num);
    } else {
      var k :| p.numPages * PAGE_SIZE <= k < |file| && file[k] != 0;
      GetPageView(p, num);
      assert View(GetPage(p, num))[p.numPages] == FilePage(file, p.numPages);
      assert FilePage(file, p.numPages)[k - p.numPages * PAGE_SIZE] == file[k];
      assert Simple(View(p), Get(num))[p.numPages] == Zeros(PAGE_SIZE);
    }
  }

  lemma CloseBeyond(p: Pager)
    requires Inv(p) && BeyondZero(p)
    ensures BeyondZero(Close(p))
  {
    hide Flushed;
    var q, n := Close(p), p.numPages;
    FlushedView(p, 0, MAX_PAGES);
    ClosedLength(p, q);
    assert Page(q, n) == FilePage(q.file, n) && Page(p, n) == FilePage(p.file, n);
    forall k | n * PAGE_SIZE <= k < |q.file|
      ensures q.file[k] == 0
    {
      assert q.file[k] == FilePage(q.file, n)[k - n * PAGE_SIZE];
    }
  }

  lemma StepSimple(p: Pager, op: Op)
    requires Inv(p) && BeyondZero(p) && CanDo(p, op)
    ensures Inv(Did(p, op)) && BeyondZero(Did(p, op)) && View(Did(p, op)) == Simple(View(p), op)
  {
    match op
    case Get(num) =>
      GetPageInv(p, num);
      GetSimple(p, num);
    case Put(num, page) => FillView(p, num, page);
    case Shut =>
      CloseView(p);
      CloseBeyond(p);
    case Reopen =>
      assert Open(p.file) == p;
  }

  /** Every run of requests, writes, closings and reopenings shows the pages of a store that
      keeps all of them in memory. */
  lemma {:induction false} RunIsSimple(p: Pager, ops: seq<Op>)
    requires Inv(p) && BeyondZero(p) && IsRun(p, ops)
    ensures View(After(p, ops)) == SimpleAfter(View(p), ops)
    decreases |ops|
  {
    hide Inv, BeyondZero, CanDo, Did, Simple, View;
    if ops != [] {
      StepSimple(p, ops[0]);
      RunIsSimple(Did(p, ops[0]), ops[1..]);
    }
  }
}
