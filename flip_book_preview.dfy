/** The preview on the landing page (src/components/FlipBookPreview.tsx):
    six pages, of which the last is locked. */
module FlipBookPreview {
  import opened BookPages

  const TotalPages: int := 6

  /** The children of the flip book, in order. */
  function Pages(): seq<Page> {
    [Cover, TitlePage, Contents(FirstContents(Toc)), Contents(SecondContents(Toc)), IntroPage, LockedPage]
  }

  /** The fixed count `6` is the number of pages rendered; the locked page
      is the last one and the only one, and no chapter page is shown. */
  lemma PagesLayout()
    ensures |Pages()| == TotalPages
    ensures forall i :: 0 <= i < |Pages()| ==> (Pages()[i] == LockedPage <==> i == TotalPages - 1)
    ensures forall p :: p in Pages() ==> !p.ChapterOpening? && !p.ChapterContinued?
    ensures Pages()[2].items + Pages()[3].items == Toc
  {
    ContentsSplit(Toc);
  }

  /** "next" is disabled exactly on the locked page. */
  lemma LockedIsLast(currentPage: int)
    requires 0 <= currentPage < TotalPages
    ensures NextDisabled(currentPage, TotalPages) <==> Pages()[currentPage] == LockedPage
  {
    PagesLayout();
  }
}
