/** What the two flip books (the full reader and the landing page
    preview) have in common: contents entries, the kinds of page, the
    split of the contents over two pages, and the pager below the book. */
module BookPages {

  /** One entry of `tocItems`: chapter number, title, page number in the book. */
  datatype TocItem = TocItem(chapter: nat, title: string, page: nat)

  /** The pages a flip book renders. */
  datatype Page =
    | Cover
    | TitlePage
    | Contents(items: seq<TocItem>)
    | ChapterOpening(number: nat, title: string)
    | ChapterContinued(number: nat)
    | IntroPage
    | LockedPage

  /** The first contents page: `tocItems.slice(0, 5)`. */
  function FirstContents(toc: seq<TocItem>): seq<TocItem> {
    if |toc| <= 5 then toc else toc[..5]
  }

  /** The second contents page: `tocItems.slice(5)`. */
  function SecondContents(toc: seq<TocItem>): seq<TocItem> {
    if |toc| <= 5 then [] else toc[5..]
  }

  /** The two contents pages show every entry once, in order: five on the
      first page (or all, when there are fewer) and the rest on the second. */
  lemma ContentsSplit(toc: seq<TocItem>)
    ensures FirstContents(toc) + SecondContents(toc) == toc
    ensures |FirstContents(toc)| == if |toc| < 5 then |toc| else 5
  {
  }

  /** `disabled={currentPage === 0}`. */
  predicate PrevDisabled(currentPage: int) { currentPage == 0 }

  /** `disabled={currentPage >= totalPages - 1}`. */
  predicate NextDisabled(currentPage: int, totalPages: int) { currentPage >= totalPages - 1 }

  /** The indicator `{currentPage + 1} / {totalPages}`. */
  datatype Indicator = Indicator(shown: int, of: int)

  function PageIndicator(currentPage: int, totalPages: int): (r: Indicator)
    ensures 0 <= currentPage < totalPages ==> 1 <= r.shown <= r.of
  {
    Indicator(currentPage + 1, totalPages)
  }

  /** On a page of the book, "previous" is disabled exactly on the first
      page and "next" exactly on the last one, where the indicator reads
      `n / n`; a book of two pages or more always has one button enabled. */
  lemma PagerSpec(currentPage: int, totalPages: int)
    requires 0 <= currentPage < totalPages
    ensures PrevDisabled(currentPage) <==> currentPage == 0
    ensures NextDisabled(currentPage, totalPages) <==> currentPage + 1 == totalPages
    ensures NextDisabled(currentPage, totalPages) <==>
      PageIndicator(currentPage, totalPages).shown == PageIndicator(currentPage, totalPages).of
    ensures totalPages >= 2 ==> !(PrevDisabled(currentPage) && NextDisabled(currentPage, totalPages))
  {
  }

  /** Chapter numbers run 1, 2, ... in order. */
  predicate NumberedInOrder(toc: seq<TocItem>) {
    forall i :: 0 <= i < |toc| ==> toc[i].chapter == i + 1
  }

  /** Page numbers strictly increase along the contents. */
  predicate PagesIncrease(toc: seq<TocItem>) {
    forall i, j :: 0 <= i < j < |toc| ==> toc[i].page < toc[j].page
  }

  /** The contents list both books show. */
  const Toc: seq<TocItem> := [
    TocItem(1, "CV tayyorlash sirlari", 8),
    TocItem(2, "Intervyu savollari va javoblar", 24),
    TocItem(3, "Open Day tayyorgarlik", 42),
    TocItem(4, "Grooming standartlari", 58),
    TocItem(5, "Parvoz tajribasi", 72),
    TocItem(6, "Sog'liq talablari", 88),
    TocItem(7, "Xavfsizlik bilimi", 102),
    TocItem(8, "Ingliz tili tayyorligi", 118),
    TocItem(9, "Portfolio yaratish", 134),
    TocItem(10, "Muvaffaqiyat strategiyasi", 148)
  ]

  /** Neighbouring entries are in order. */
  predicate StepsIncrease(toc: seq<TocItem>) {
    forall i :: 0 <= i < |toc| - 1 ==> toc[i].page < toc[i + 1].page
  }

  /** Increasing neighbours make the whole list increasing. */
  lemma {:induction false} StepsGiveIncrease(toc: seq<TocItem>)
    requires StepsIncrease(toc)
    ensures PagesIncrease(toc)
    decreases |toc|
  {
    if |toc| > 1 {
      var init := toc[..|toc| - 1];
      assert StepsIncrease(init) by {
        forall i | 0 <= i < |init| - 1 ensures init[i].page < init[i + 1].page {
          assert init[i] == toc[i] && init[i + 1] == toc[i + 1];
        }
      }
      StepsGiveIncrease(init);
      forall i, j | 0 <= i < j < |toc| ensures toc[i].page < toc[j].page {
        if j < |toc| - 1 {
          assert init[i] == toc[i] && init[j] == toc[j];
        } else if i < |toc| - 2 {
          assert init[i] == toc[i] && init[|toc| - 2] == toc[|toc| - 2];
        }
      }
    }
  }

  /** The shared contents list numbers chapters 1 to 10 in order, with
      strictly increasing page numbers, split five and five. */
  lemma TocShape()
    ensures |Toc| == 10 && NumberedInOrder(Toc) && PagesIncrease(Toc)
    ensures |FirstContents(Toc)| == 5 && |SecondContents(Toc)| == 5
  {
    StepsGiveIncrease(Toc);
  }
}
