/** The page table of db_lab/pager.h as an array of buffers, each method proved to do what
    module PagerModel says. The file behind the descriptor is `file`; reads and writes of whole
    pages succeed. */
module PagerCache {
  import opened ByteStrings
  import opened PagerModel

  /** A null entry or a whole page. */
  ghost predicate Whole(b: array?<Byte>) { b != null ==> b.Length == PAGE_SIZE }

  function SetByte(page: Bytes, i: nat, b: Byte): (p: Bytes)
    requires i < |page|
    ensures |p| == |page| && forall k :: 0 <= k < |p| ==> p[k] == if k == i then b else page[k]
  {
    page[..i] + [b] + page[i + 1..]
  }

  class Cache {
    var file: Bytes
    var numPages: nat
    const pages: array<array?<Byte>>

    ghost function Buffers(): set<object>
      reads pages
    {
      set i | 0 <= i < pages.Length && pages[i] != null :: pages[i]
    }

    ghost predicate Valid()
      reads pages
    {
      && pages.Length == MAX_PAGES
      && (forall i :: 0 <= i < MAX_PAGES ==> Whole(pages[i]))
      && (forall i, j :: 0 <= i < j < MAX_PAGES && pages[i] != null ==> pages[i] != pages[j])
    }

    ghost function Cached(): map<nat, Bytes>
      reads pages, Buffers()
    {
      map i: nat | 0 <= i < pages.Length && pages[i] != null :: pages[i][..]
    }

    ghost function Model(): Pager
      reads this, pages, Buffers()
    {
      Pager(file, Cached(), numPages)
    }

    /** Open (lines 18-31). */
    constructor (file: Bytes)
      ensures Valid() && fresh(pages) && Model() == Open(file)
    {
      this.file := file;
      numPages := |file| / PAGE_SIZE;
      pages := new array?<Byte>[MAX_PAGES](_ => null);
    }

    /** The zeroed buffer, filled with what the file has (lines 53, 56-64). */
    method ReadPage(num: nat) returns (page: array<Byte>)
      ensures fresh(page) && page[..] == if num < numPages then FilePage(file, num) else Zeros(PAGE_SIZE)
    {
      page := new Byte[PAGE_SIZE](_ => 0);
      if num < numPages {
        var i := 0;
        while i < PAGE_SIZE && num * PAGE_SIZE + i < |file|
          invariant 0 <= i <= PAGE_SIZE
          invariant forall k :: 0 <= k < PAGE_SIZE ==> page[k] == if k < i then ByteAt(file, num * PAGE_SIZE + k) else 0
        {
          page[i] := file[num * PAGE_SIZE + i];
          i := i + 1;
        }
        assert page[..] == FilePage(file, num);
      } else {
        assert page[..] == Zeros(PAGE_SIZE);
      }
    }

    /** OnPageMissing (lines 50-70). */
    method OnPageMissing(num: nat)
      requires Valid() && num < MAX_PAGES && pages[num] == null
      modifies this`numPages, pages
      ensures Valid() && pages[num] != null && fresh(pages[num]) && Model() == PagerModel.GetPage(old(Model()), num)
      ensures forall i :: 0 <= i < MAX_PAGES && i != num ==> pages[i] == old(pages[i])
    {
      ghost var before := Cached();
      var page := ReadPage(num);
      pages[num] := page;
      if num >= numPages {
        numPages := num + 1;
      }
      assert Cached() == before[num := page[..]];
    }

    /** GetPage (lines 96-115): the same buffer every time. */
    method GetPage(num: nat) returns (page: array<Byte>)
      requires Valid() && num < MAX_PAGES
      modifies this`numPages, pages
      ensures Valid() && page == pages[num] && Model() == PagerModel.GetPage(old(Model()), num)
      ensures old(pages[num]) != null ==> page == old(pages[num])
      ensures forall i :: 0 <= i < MAX_PAGES && i != num ==> pages[i] == old(pages[i])
    {
      if pages[num] == null {
        OnPageMissing(num);
      }
      page := pages[num];
    }

    /** The table writes into a buffer that GetPage returned; the page table, which holds the
        same buffer, shows it. */
    method Poke(num: nat, page: array<Byte>, i: nat, b: Byte)
      requires Valid() && num < MAX_PAGES && page == pages[num] && i < PAGE_SIZE
      modifies page
      ensures Valid() && num in old(Model()).cached
      ensures Model() == Fill(old(Model()), num, SetByte(old(page[..]), i, b))
    {
      ghost var before := Cached();
      page[i] := b;
      assert page[..] == SetByte(old(page[..]), i, b);
      assert Cached() == before[num := page[..]];
    }

    /** FlushPage (lines 72-94). */
    method FlushPage(num: nat)
      requires Valid() && num < MAX_PAGES
      modifies this`file
      ensures Model() == if num in old(Model()).cached
                         then old(Model()).(file := Written(old(file), num, old(Model()).cached[num]))
                         else old(Model())
    {
      if pages[num] == null {
        return;
      }
      file := Written(file, num, pages[num][..]);
    }

    /** One page of Close (lines 35-41). */
    method FlushAndFree(num: nat)
      requires Valid() && num < MAX_PAGES && pages[num] != null
      modifies this`file, pages
      ensures Valid() && numPages == old(numPages) && Buffers() <= old(Buffers())
      ensures var p := old(Model());
              && num in p.cached
              && Model() == p.(file := Written(p.file, num, p.cached[num]), cached := p.cached - {num})
    {
      hide Written;
      ghost var before := Cached();
      FlushPage(num);
      pages[num] := null;
      assert Cached() == before - {num};
    }

    /** Close (lines 33-48). */
    method Close()
      requires Valid()
      modifies this`file, pages
      ensures Valid() && Model() == PagerModel.Close(old(Model()))
    {
      hide Written, FilePage;
      ghost var all := PagerModel.Close(Model());
      var num := 0;
      while num < MAX_PAGES
        invariant 0 <= num <= MAX_PAGES && Valid() && numPages == old(numPages)
        invariant Buffers() <= old(Buffers())
        invariant forall n :: n in Cached() ==> |Cached()[n]| == PAGE_SIZE
        invariant all == Flushed(Model(), num, MAX_PAGES)
      {
        if pages[num] != null {
          FlushAndFree(num);
        }
        num := num + 1;
      }
    }
  }
}
