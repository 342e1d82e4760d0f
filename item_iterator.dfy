/** `ItemIterator`: the items of a paginator's pages, one at a time, through
    a FIFO buffer that is refilled a page at a time. */
module ItemIterators {
  import opened Wrappers
  import opened Pagination
  import CC = ConsumedCapacity

  /** An `IteratorResult` of an item iterator. */
  datatype ItemStep = ItemDone | ItemYield(item: Item)

  const Detached := "The underlying paginator has been detached from this iterator."

  /** The items of the pages, in page order and in order within a page. */
  function Flatten(pages: seq<Page>): (items: seq<Item>)
    ensures |items| == TotalItems(pages)
    decreases |pages|
  {
    if |pages| == 0 then [] else Flatten(pages[..|pages| - 1]) + ItemsOf(pages[|pages| - 1])
  }

  lemma FlattenSnoc(pages: seq<Page>, page: Page)
    ensures Flatten(pages + [page]) == Flatten(pages) + ItemsOf(page)
  {
    assert (pages + [page])[..|pages|] == pages;
  }

  class ItemIterator {
    const paginator: Paginator
    var pending: seq<Item>
    var iteratedCount: nat
    /** The rejection every later `next()` repeats. */
    var failure: Option<string>
    /** Every item handed out so far. */
    ghost var yielded: seq<Item>

    ghost predicate Valid()
      reads this, paginator
    {
      && paginator.Valid()
      && Finite(paginator.backend)
      && iteratedCount == |yielded|
      && (failure.None? ==> paginator.failure.None? && yielded + pending == Flatten(paginator.pages))
    }

    /** The iterator over a fresh paginator. */
    constructor (paginator: Paginator)
      requires paginator.Valid() && paginator.pages == [] && paginator.failure.None?
      requires Finite(paginator.backend)
      ensures Valid() && this.paginator == paginator
      ensures pending == [] && yielded == [] && iteratedCount == 0 && failure.None?
    {
      this.paginator := paginator;
      pending := [];
      iteratedCount := 0;
      failure := None;
      yielded := [];
    }

    /** `count`: the number of items handed out. */
    function Count(): (n: nat)
      reads this, paginator
      requires Valid()
      ensures n == |yielded|
    {
      iteratedCount
    }

    /** `scannedCount` and `consumedCapacity`: the paginator's. */
    function ScannedCount(): nat
      reads this, paginator
    {
      paginator.scannedCount
    }

    function ConsumedCapacity(): Option<CC.Report>
      reads this, paginator
    {
      paginator.consumedCapacity
    }

    /** `next()`: the head of the buffer, refilling the buffer from the
        paginator only while it is empty; done once the buffer is empty and
        the paginator is done. */
    method Next() returns (r: Result<ItemStep>)
      requires Valid()
      modifies this, paginator
      ensures Valid()
      ensures old(failure).Some? ==> r == Err(old(failure).value) && yielded == old(yielded) && pending == old(pending)
      ensures old(failure).None? && old(pending) != [] ==>
        && r == Ok(ItemYield(old(pending)[0]))
        && pending == old(pending)[1..]
        && paginator.State() == old(paginator.State())
      ensures r.Ok? && r.value.ItemYield? ==>
        yielded == old(yielded) + [r.value.item] && iteratedCount == old(iteratedCount) + 1
      ensures r.Ok? && r.value.ItemDone? ==>
        && old(pending) == [] && pending == [] && yielded == old(yielded)
        && Advance(paginator.backend, paginator.op, paginator.limit, paginator.State()).result == Ok(Done)
      ensures r.Err? ==> failure == Some(r.error) && yielded == old(yielded)
    {
      if failure.Some? {
        return Err(failure.value);
      }
      while pending == []
        invariant Valid() && failure.None?
        invariant yielded == old(yielded) && iteratedCount == old(iteratedCount)
        invariant old(pending) != [] ==> pending == old(pending) && paginator.State() == old(paginator.State())
        decreases Pending(paginator.backend, paginator.op, paginator.State())
      {
        var more := FetchPage();
        if more.Err? {
          return Err(more.error);
        }
        if !more.value {
          return Ok(ItemDone);
        }
      }
      var item := Shift();
      return Ok(ItemYield(item));
    }

    /** The head of the buffer handed out. */
    method Shift() returns (item: Item)
      requires Valid() && failure.None? && pending != []
      modifies this
      ensures Valid() && failure.None?
      ensures item == old(pending)[0] && pending == old(pending)[1..]
      ensures yielded == old(yielded) + [item] && iteratedCount == old(iteratedCount) + 1
    {
      item := pending[0];
      pending := pending[1..];
      iteratedCount := iteratedCount + 1;
      yielded := yielded + [item];
      assert yielded + pending == old(yielded) + old(pending);
    }

    /** One turn of the refill loop of `getNext`: ask the paginator for a
        page and push its items onto the buffer; `false` when the paginator
        is done. */
    method FetchPage() returns (r: Result<bool>)
      requires Valid() && failure.None? && pending == []
      modifies this, paginator
      ensures Valid()
      ensures yielded == old(yielded) && iteratedCount == old(iteratedCount)
      ensures r.Err? ==> failure == Some(r.error)
      ensures r.Ok? ==> failure.None?
      ensures r == Ok(false) ==>
        && pending == []
        && Advance(paginator.backend, paginator.op, paginator.limit, paginator.State()).result == Ok(Done)
      ensures r == Ok(true) ==>
        Pending(paginator.backend, paginator.op, paginator.State()) < old(Pending(paginator.backend, paginator.op, paginator.State()))
    {
      ghost var before := paginator.State();
      ghost var pagesBefore := paginator.pages;
      var result := paginator.Next();
      if result.Err? {
        failure := Some(result.error);
        return Err(result.error);
      }
      if result.value.Done? {
        assert paginator.pages == pagesBefore;
        return Ok(false);
      }
      AdvanceProgresses(paginator.backend, paginator.op, paginator.limit, before);
      var page := result.value.page;
      assert Advance(paginator.backend, paginator.op, paginator.limit, before).received == Some(page);
      assert paginator.pages == pagesBefore + [page];
      FlattenSnoc(pagesBefore, page);
      pending := pending + ItemsOf(page);
      r := Ok(true);
    }

    /** `pages()`: hands over the paginator; every later `next()` rejects. */
    method Pages() returns (p: Paginator)
      requires Valid()
      modifies this
      ensures Valid()
      ensures p == paginator && failure == Some(Detached)
      ensures pending == old(pending) && yielded == old(yielded)
    {
      failure := Some(Detached);
      return paginator;
    }

    /** `return()`: empties the buffer, interrupts the paginator, and makes
        every later `next()` reject. */
    method Return() returns (r: ItemStep)
      requires Valid()
      modifies this, paginator
      ensures Valid()
      ensures r == ItemDone && pending == [] && failure == Some(Interrupted)
      ensures paginator.failure == Some(Interrupted)
    {
      failure := Some(Interrupted);
      pending := [];
      var _ := paginator.Return();
      r := ItemDone;
    }
  }
}
