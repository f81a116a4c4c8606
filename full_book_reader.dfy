/** The reader of the whole book (src/components/FullBookReader.tsx): the
    cover, the title page, two contents pages, and two pages per chapter. */
module FullBookReader {
  import opened BookPages

  /** The titles of `chapters`, in order (their texts are not modelled). */
  const Chapters: seq<string> := [
    "CV tayyorlash sirlari",
    "Intervyu savollari",
    "Open Day tayyorgarlik",
    "Grooming standartlari",
    "Parvoz tajribasi"
  ]

  /** `totalPages`: cover, title page, two contents pages, two per chapter. */
  const TotalPages: int := 4 + |Chapters| * 2

  /** The pages of `chapters.map(...)`: chapter `i` opens with the label
      `i + 1` and its title, and continues on the next page. */
  function ChapterPages(titles: seq<string>): (r: seq<Page>)
    ensures |r| == 2 * |titles|
    ensures forall i :: 0 <= i < |titles| ==>
      r[2 * i] == ChapterOpening(i + 1, titles[i]) && r[2 * i + 1] == ChapterContinued(i + 1)
  {
    if titles == [] then []
    else
      var n := |titles|;
      ChapterPages(titles[..n - 1]) + [ChapterOpening(n, titles[n - 1]), ChapterContinued(n)]
  }

  /** The children of the flip book, in order. */
  function Pages(): seq<Page> {
    [Cover, TitlePage, Contents(FirstContents(Toc)), Contents(SecondContents(Toc))]
    + ChapterPages(Chapters)
  }

  /** The page count matches the pages rendered, and chapter `i` sits on
      pages `4 + 2i` and `5 + 2i`, labelled `i + 1`. */
  lemma PagesLayout()
    ensures |Pages()| == TotalPages == 14
    ensures Pages()[..4] == [Cover, TitlePage, Contents(Toc[..5]), Contents(Toc[5..])]
    ensures forall i :: 0 <= i < |Chapters| ==>
      && Pages()[4 + 2 * i] == ChapterOpening(i + 1, Chapters[i])
      && Pages()[5 + 2 * i] == ChapterContinued(i + 1)
  {
    var p := Pages();
    var c := ChapterPages(Chapters);
    forall i | 0 <= i < |Chapters|
      ensures p[4 + 2 * i] == ChapterOpening(i + 1, Chapters[i]) && p[5 + 2 * i] == ChapterContinued(i + 1)
    {
      assert p[4 + 2 * i] == c[2 * i];
      assert p[5 + 2 * i] == c[2 * i + 1];
    }
  }

  /** The last page is the continuation of the last chapter, which is where
      the "next" button is disabled. */
  lemma LastPage(currentPage: int)
    requires 0 <= currentPage < TotalPages
    ensures NextDisabled(currentPage, TotalPages) <==> Pages()[currentPage] == ChapterContinued(|Chapters|)
  {
    PagesLayout();
    var p := Pages();
    if currentPage >= 4 {
      var i := (currentPage - 4) / 2;
      if (currentPage - 4) % 2 == 0 {
        assert p[currentPage] == p[4 + 2 * i] == ChapterOpening(i + 1, Chapters[i]);
      } else {
        assert p[currentPage] == p[5 + 2 * i] == ChapterContinued(i + 1);
      }
    }
  }

  /** Only the first five chapters of the contents have pages in the
      reader; each of them has the contents' title except chapter 2, whose
      chapter page shortens it. */
  lemma ChaptersAgainstToc()
    ensures |Chapters| == 5 < |Toc|
    ensures forall i :: 0 <= i < |Chapters| && i != 1 ==> Chapters[i] == Toc[i].title
    ensures Chapters[1] != Toc[1].title
    ensures forall p :: p in Pages() && p.ChapterOpening? ==> 1 <= p.number <= 5
  {
    PagesLayout();
    forall p | p in Pages() && p.ChapterOpening? ensures 1 <= p.number <= 5 {
      var j :| 0 <= j < |Pages()| && Pages()[j] == p;
      assert j >= 4;
      var i := (j - 4) / 2;
      assert Pages()[4 + 2 * i] == ChapterOpening(i + 1, Chapters[i]);
      assert Pages()[5 + 2 * i] == ChapterContinued(i + 1);
    }
  }
}
