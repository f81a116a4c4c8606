/** The book catalogue on the admin page (src/components/AdminBookManager.tsx):
    uploading a batch of files as new books, deleting a book, choosing the
    primary book and editing a title and description. Every remote call is
    recorded in the order it is issued, and its answer is an input. */
module AdminBookManager {
  import opened Wrappers
  import opened Text
  import opened Sequences

  const ErrorTitle: string := "Xatolik"
  const MissingInputText: string := "Sarlavha va fayllarni tanlang"
  const SuccessTitle: string := "Muvaffaqiyat"
  const UploadedText: string := "Fayllar yuklandi"
  const DeletedTitle: string := "O'chirildi"
  const PrimarySetTitle: string := "Asosiy kitob o'rnatildi"
  const UpdatedTitle: string := "Yangilandi"

  /** A toast: its title and optional description. */
  datatype Toast = Toast(title: string, description: Option<string>)

  /** One row of the `books` table. */
  datatype Book = Book(
    id: string,
    title: string,
    description: Option<string>,
    filePath: string,
    fileName: string,
    fileSize: nat,
    isPrimary: bool,
    displayOrder: int,
    createdAt: int)

  /** The part of a selected browser `File` the upload reads. */
  datatype UploadFile = UploadFile(name: string, size: nat)

  /** The object handed to `insert` for one uploaded file. */
  datatype NewBookRow = NewBookRow(
    title: string,
    description: Option<string>,
    filePath: string,
    fileName: string,
    fileSize: nat,
    isPrimary: bool,
    displayOrder: int,
    createdBy: string)

  /** The remote calls the catalogue issues. */
  datatype BookCall =
    | GetSession
    | StoreFile(path: string)
    | InsertRow(row: NewBookRow)
    | RefetchBooks
    | RemoveFile(path: string)
    | DeleteRow(id: string)
    | ClearPrimary
    | MarkPrimary(id: string)
    | UpdateRow(id: string, title: string, description: Option<string>)

  /** The answer of the `select` on the `books` table. */
  datatype BooksReply = BooksFailed(message: string) | BooksRows(rows: seq<Book>)

  /** What the environment supplies for the `i`-th file of a batch: the
      `Date.now()` reading in its path, the answer of the storage upload,
      and the answer of the insert (ignored when the upload failed). */
  datatype Attempt = Attempt(stamp: nat, upload: Reply, insert: Reply)

  /** `x || null` for a string: the empty string is stored as null. */
  function OptionalText(s: string): (r: Option<string>)
    ensures r.None? <==> s == []
    ensures r.Some? ==> r.value == s
  {
    if s == [] then None else Some(s)
  }

  /** `startEdit` shows a null description as "" and saving writes it back
      through `|| null`: every description survives the round trip except
      the empty string, which comes back as null. */
  lemma OptionalTextRoundTrip(d: Option<string>)
    ensures d != Some([]) ==> OptionalText(d.GetOr([])) == d
    ensures d == Some([]) ==> OptionalText(d.GetOr([])) == None
  {
  }

  /** Lines 70-72: the title of the `i`-th row of a batch of `count` files. */
  function BatchTitle(title: string, count: nat, i: nat): string {
    if count == 1 then title else title + " (" + NatToString(i + 1) + ")"
  }

  /** In a batch of several files no two rows get the same title; a single
      file keeps the title exactly as typed, white space included. */
  lemma BatchTitlesDistinct(title: string, count: nat, i: nat, j: nat)
    requires count != 1 && i != j
    ensures BatchTitle(title, count, i) != BatchTitle(title, count, j)
  {
    var si := NatToString(i + 1);
    var sj := NatToString(j + 1);
    if BatchTitle(title, count, i) == BatchTitle(title, count, j) {
      var ti := title + " (" + si + ")";
      var tj := title + " (" + sj + ")";
      var k := |title| + 2;
      assert |si| == |sj|;
      assert ti[k..k + |si|] == si;
      assert tj[k..k + |sj|] == sj;
      NatToStringInjective(i + 1, j + 1);
    }
  }

  /** Line 62: `${session.user.id}/${Date.now()}_${file.name}`. */
  function FilePath(uid: string, stamp: nat, name: string): (p: string)
    ensures StartsWith(p, uid + "/")
  {
    var p := uid + "/" + NatToString(stamp) + "_" + name;
    assert p[..|uid + "/"|] == uid + "/";
    p
  }

  /** Everything `handleUpload` reads once it has a session: the user id,
      the selected files, the environment's answer for every file, the
      typed title and description, and `books.length` at the start. */
  datatype Batch = Batch(
    uid: string,
    files: seq<UploadFile>,
    attempts: seq<Attempt>,
    title: string,
    description: string,
    existing: nat)
  {
    predicate Valid() { |attempts| >= |files| }
  }

  function PathOf(b: Batch, i: nat): string
    requires b.Valid() && i < |b.files|
  {
    FilePath(b.uid, b.attempts[i].stamp, b.files[i].name)
  }

  /** Lines 75-85: the row inserted for the `i`-th file. */
  function PlannedRow(b: Batch, i: nat): NewBookRow
    requires b.Valid() && i < |b.files|
  {
    NewBookRow(
      BatchTitle(b.title, |b.files|, i),
      OptionalText(b.description),
      PathOf(b, i),
      b.files[i].name,
      b.files[i].size,
      b.existing == 0 && i == 0,
      b.existing + i,
      b.uid)
  }

  /** The rows of one batch: only the first row of a batch into an empty
      catalogue is primary, so a batch holds at most one primary row; the
      display orders continue from the existing count without gaps or
      repeats; titles are distinct when there are several files; every
      file lies under the uploader's folder. */
  lemma PlannedRowsSpec(b: Batch, i: nat, j: nat)
    requires b.Valid() && i < |b.files| && j < |b.files|
    ensures PlannedRow(b, i).isPrimary <==> b.existing == 0 && i == 0
    ensures PlannedRow(b, i).isPrimary && PlannedRow(b, j).isPrimary ==> i == j
    ensures b.existing == 0 ==> PlannedRow(b, 0).isPrimary
    ensures PlannedRow(b, i).displayOrder - b.existing == i
    ensures i != j ==> PlannedRow(b, i).displayOrder != PlannedRow(b, j).displayOrder
    ensures |b.files| == 1 ==> PlannedRow(b, i).title == b.title
    ensures |b.files| > 1 && i != j ==> PlannedRow(b, i).title != PlannedRow(b, j).title
    ensures StartsWith(PlannedRow(b, i).filePath, b.uid + "/")
    ensures PlannedRow(b, i).description.None? <==> b.description == []
  {
    if |b.files| > 1 && i != j {
      BatchTitlesDistinct(b.title, |b.files|, i, j);
    }
  }

  /** A file of the batch is lost: its upload or its insert failed. */
  predicate Fails(a: Attempt) { a.upload.Err? || (a.upload.Ok? && a.insert.Err?) }

  /** The message of the error thrown for a failed file. */
  function FailureMessage(a: Attempt): string
    requires Fails(a)
  {
    if a.upload.Err? then a.upload.message else a.insert.message
  }

  /** The first failing file at or after `k`, or the number of files. */
  function FirstFailureFrom(b: Batch, k: nat): (r: nat)
    requires b.Valid() && k <= |b.files|
    ensures k <= r <= |b.files|
    ensures forall j :: k <= j < r ==> !Fails(b.attempts[j])
    ensures r < |b.files| ==> Fails(b.attempts[r])
    decreases |b.files| - k
  {
    if k == |b.files| then k
    else if Fails(b.attempts[k]) then k
    else FirstFailureFrom(b, k + 1)
  }

  function FirstFailure(b: Batch): nat
    requires b.Valid()
  {
    FirstFailureFrom(b, 0)
  }

  /** The storage upload and the insert of the `i`-th file. */
  function FileCalls(b: Batch, i: nat): seq<BookCall>
    requires b.Valid() && i < |b.files|
  {
    [StoreFile(PathOf(b, i)), InsertRow(PlannedRow(b, i))]
  }

  /** The calls for the first `k` files when all of them succeed: their
      upload and insert, file by file, each insert right after its upload. */
  function CallsUpTo(b: Batch, k: nat): (r: seq<BookCall>)
    requires b.Valid() && k <= |b.files|
    ensures |r| == 2 * k
    ensures forall i :: 0 <= i < k ==> r[2 * i] == StoreFile(PathOf(b, i))
    ensures forall i :: 0 <= i < k ==> r[2 * i + 1] == InsertRow(PlannedRow(b, i))
  {
    if k == 0 then [] else CallsUpTo(b, k - 1) + FileCalls(b, k - 1)
  }

  /** The calls for a failing file: no insert when its upload failed. */
  function FailureCalls(b: Batch, i: nat): seq<BookCall>
    requires b.Valid() && i < |b.files| && Fails(b.attempts[i])
  {
    if b.attempts[i].upload.Err? then [StoreFile(PathOf(b, i))] else FileCalls(b, i)
  }

  /** The calls of the loop of lines 60-88 and the refetch after it: every
      file up to the first failure, that file's failing call(s) and nothing
      more; a refetch only when every file succeeded. */
  function BatchCalls(b: Batch): seq<BookCall>
    requires b.Valid()
  {
    var f := FirstFailure(b);
    CallsUpTo(b, f) + (if f < |b.files| then FailureCalls(b, f) else [RefetchBooks])
  }

  /** A batch inserts the rows of the files before the first failure, and
      of no file after it; a batch without failures inserts one row per
      file and ends with the refetch. */
  lemma BatchCallsSpec(b: Batch)
    requires b.Valid()
    ensures var f := FirstFailure(b);
      && (forall i :: 0 <= i < f ==> BatchCalls(b)[2 * i + 1] == InsertRow(PlannedRow(b, i)))
      && (f < |b.files| ==> |BatchCalls(b)| <= 2 * f + 2 && RefetchBooks !in BatchCalls(b))
      && (f == |b.files| ==>
            |BatchCalls(b)| == 2 * |b.files| + 1 && BatchCalls(b)[2 * |b.files|] == RefetchBooks)
  {
    NoRefetchUpTo(b, FirstFailure(b));
  }

  /** The per-file calls never include a refetch. */
  lemma {:induction false} NoRefetchUpTo(b: Batch, k: nat)
    requires b.Valid() && k <= |b.files|
    ensures RefetchBooks !in CallsUpTo(b, k)
  {
    if k > 0 {
      NoRefetchUpTo(b, k - 1);
      assert CallsUpTo(b, k) == CallsUpTo(b, k - 1) + FileCalls(b, k - 1);
    }
  }

  /** The loop of lines 60-88: upload and insert file by file, stopping at
      the first error, whose message is returned. */
  method RunBatch(b: Batch) returns (calls: seq<BookCall>, failure: Option<string>)
    requires b.Valid()
    ensures failure.None? <==> FirstFailure(b) == |b.files|
    ensures failure.None? ==> calls == CallsUpTo(b, |b.files|)
    ensures failure.Some? ==>
      && calls == CallsUpTo(b, FirstFailure(b)) + FailureCalls(b, FirstFailure(b))
      && failure.value == FailureMessage(b.attempts[FirstFailure(b)])
  {
    var n := |b.files|;
    failure := None;
    calls := [];
    var i := 0;
    while i < n && failure.None?
      invariant 0 <= i <= n
      invariant i <= FirstFailure(b)
      invariant failure.None? ==> calls == CallsUpTo(b, i)
      invariant failure.Some? ==>
        && i == FirstFailure(b) && i < n
        && calls == CallsUpTo(b, i) + FailureCalls(b, i)
        && failure.value == FailureMessage(b.attempts[i])
      decreases n - i, if failure.None? then 1 else 0
    {
      var path := FilePath(b.uid, b.attempts[i].stamp, b.files[i].name);
      if b.attempts[i].upload.Err? {
        calls := calls + [StoreFile(path)];
        failure := Some(b.attempts[i].upload.message);
      } else if b.attempts[i].insert.Err? {
        calls := calls + [StoreFile(path), InsertRow(PlannedRow(b, i))];
        failure := Some(b.attempts[i].insert.message);
      } else {
        calls := calls + [StoreFile(path), InsertRow(PlannedRow(b, i))];
        i := i + 1;
      }
    }
  }

  /** `!selectedFiles || selectedFiles.length === 0 || !newTitle.trim()`. */
  predicate UploadRejected(files: Option<seq<UploadFile>>, title: string) {
    files.None? || |files.value| == 0 || Trim(title) == []
  }

  /** The upload needs at least one file and a title that is not blank;
      a title made only of white space is refused. */
  lemma UploadRejectedIff(files: Option<seq<UploadFile>>, title: string)
    ensures !UploadRejected(files, title) <==>
      files.Some? && |files.value| > 0 && !AllSpace(title)
  {
    TrimEmptyIffBlank(title);
  }

  /** The number of primary books. */
  function PrimaryCount(books: seq<Book>): nat {
    if books == [] then 0 else (if books[0].isPrimary then 1 else 0) + PrimaryCount(books[1..])
  }

  /** The number of books with a given id. */
  function IdCount(books: seq<Book>, id: string): nat {
    if books == [] then 0 else (if books[0].id == id then 1 else 0) + IdCount(books[1..], id)
  }

  predicate UniqueIds(books: seq<Book>) {
    forall i, j :: 0 <= i < j < |books| ==> books[i].id != books[j].id
  }

  /** `books.filter((b) => b.id !== id)`. */
  function WithoutBook(books: seq<Book>, id: string): (r: seq<Book>)
    ensures |r| <= |books|
    ensures forall b :: b in r ==> b in books && b.id != id
  {
    if books == [] then []
    else if books[0].id != id then [books[0]] + WithoutBook(books[1..], id)
    else WithoutBook(books[1..], id)
  }

  /** Delete keeps, in order, every book with another id, every copy of
      it, and removes no primary flag it does not remove with its book. */
  lemma {:induction false} WithoutBookSpec(books: seq<Book>, id: string)
    ensures IsSubsequence(WithoutBook(books, id), books)
    ensures forall b :: b in books && b.id != id ==> b in WithoutBook(books, id)
    ensures IdCount(WithoutBook(books, id), id) == 0
    ensures PrimaryCount(WithoutBook(books, id)) <= PrimaryCount(books)
    ensures forall b ::
      multiset(WithoutBook(books, id))[b] == if b.id != id then multiset(books)[b] else 0
  {
    if books != [] {
      WithoutBookSpec(books[1..], id);
      assert books == [books[0]] + books[1..];
      forall b | b in books && b.id != id
        ensures b in WithoutBook(books, id)
      {
        if b != books[0] {
          assert b in books[1..];
        }
      }
      if books[0].id != id {
        assert ([books[0]] + WithoutBook(books[1..], id))[1..] == WithoutBook(books[1..], id);
      }
    }
  }

  /** `books.map((b) => ({ ...b, is_primary: b.id === bookId }))`. */
  function WithPrimary(books: seq<Book>, id: string): (r: seq<Book>)
    ensures |r| == |books|
    ensures forall i :: 0 <= i < |books| ==> r[i] == books[i].(isPrimary := books[i].id == id)
  {
    if books == [] then [] else [books[0].(isPrimary := books[0].id == id)] + WithPrimary(books[1..], id)
  }

  /** After choosing a primary book, the primary books are exactly the
      books with that id. */
  lemma {:induction false} WithPrimaryCount(books: seq<Book>, id: string)
    ensures PrimaryCount(WithPrimary(books, id)) == IdCount(books, id)
  {
    if books != [] {
      WithPrimaryCount(books[1..], id);
      assert WithPrimary(books, id)[1..] == WithPrimary(books[1..], id);
    }
  }

  /** With distinct ids an id occurs at most once, and exactly once when
      some book has it. */
  lemma {:induction false} UniqueIdCount(books: seq<Book>, id: string)
    requires UniqueIds(books)
    ensures IdCount(books, id) <= 1
    ensures (exists i :: 0 <= i < |books| && books[i].id == id) ==> IdCount(books, id) == 1
  {
    if books != [] {
      var rest := books[1..];
      assert UniqueIds(rest) by {
        forall i, j | 0 <= i < j < |rest| ensures rest[i].id != rest[j].id {
          assert rest[i] == books[i + 1] && rest[j] == books[j + 1];
        }
      }
      UniqueIdCount(rest, id);
      if books[0].id == id {
        AbsentIdCount(rest, id);
      }
      if exists i :: 0 <= i < |books| && books[i].id == id {
        var i :| 0 <= i < |books| && books[i].id == id;
        if i > 0 {
          assert rest[i - 1].id == id;
        }
      }
    }
  }

  /** An id that no book of a list has is counted 0 times. */
  lemma {:induction false} AbsentIdCount(books: seq<Book>, id: string)
    requires forall i :: 0 <= i < |books| ==> books[i].id != id
    ensures IdCount(books, id) == 0
  {
    if books != [] {
      AbsentIdCount(books[1..], id);
    }
  }

  /** Set-primary on a catalogue with distinct ids leaves at most one
      primary book, and exactly one when the chosen id is in the list. */
  lemma SetPrimaryLeavesOnePrimary(books: seq<Book>, id: string)
    requires UniqueIds(books)
    ensures PrimaryCount(WithPrimary(books, id)) <= 1
    ensures (exists i :: 0 <= i < |books| && books[i].id == id) ==>
      PrimaryCount(WithPrimary(books, id)) == 1
  {
    WithPrimaryCount(books, id);
    UniqueIdCount(books, id);
  }

  /** The `handleUpdate` map: the matching book gets the edited title and
      description, every other book stays. */
  function WithEdit(books: seq<Book>, id: string, title: string, description: Option<string>): (r: seq<Book>)
    ensures |r| == |books|
    ensures forall i :: 0 <= i < |books| && books[i].id == id ==>
      r[i] == books[i].(title := title, description := description)
    ensures forall i :: 0 <= i < |books| && books[i].id != id ==> r[i] == books[i]
  {
    if books == [] then []
    else
      var head := if books[0].id == id then books[0].(title := title, description := description) else books[0];
      [head] + WithEdit(books[1..], id, title, description)
  }

  /** Editing never changes which books are primary. */
  lemma {:induction false} WithEditKeepsPrimaries(books: seq<Book>, id: string, title: string, description: Option<string>)
    ensures PrimaryCount(WithEdit(books, id, title, description)) == PrimaryCount(books)
  {
    if books != [] {
      WithEditKeepsPrimaries(books[1..], id, title, description);
      assert WithEdit(books, id, title, description)[1..] == WithEdit(books[1..], id, title, description);
    }
  }

  /** Opening a book for editing and saving it untouched leaves the
      catalogue as it was, unless its description was the empty string,
      which is then stored as null. */
  lemma EditWithoutChangesIsNoOp(books: seq<Book>, k: nat)
    requires UniqueIds(books) && k < |books|
    ensures var b := books[k];
      b.description != Some([]) ==>
        WithEdit(books, b.id, b.title, OptionalText(b.description.GetOr([]))) == books
  {
    var b := books[k];
    if b.description != Some([]) {
      var r := WithEdit(books, b.id, b.title, OptionalText(b.description.GetOr([])));
      forall i | 0 <= i < |books| ensures r[i] == books[i] {
        if books[i].id == b.id {
          assert i == k;
        }
      }
    }
  }

  /** The star button of a row: shown when the row is not being edited and
      its book is not primary. */
  predicate SetPrimaryOffered(book: Book, editingId: Option<string>) {
    editingId != Some(book.id) && !book.isPrimary
  }

  /** After a successful set-primary no row offers the star for the chosen
      book, and every other row that is not being edited does. */
  lemma SetPrimaryThenStars(books: seq<Book>, id: string, editingId: Option<string>, i: nat)
    requires i < |books|
    ensures var r := WithPrimary(books, id);
      SetPrimaryOffered(r[i], editingId) <==> books[i].id != id && editingId != Some(books[i].id)
  {
  }

  /** The component's state. */
  class BookManager {
    var books: seq<Book>
    var loading: bool
    var uploading: bool
    var editingId: Option<string>
    var editTitle: string
    var editDescription: string
    var newTitle: string
    var newDescription: string
    var selectedFiles: Option<seq<UploadFile>>
    var showAddForm: bool
    var toasts: seq<Toast>

    constructor ()
      ensures books == [] && loading && !uploading && editingId == None
      ensures editTitle == [] && editDescription == [] && newTitle == [] && newDescription == []
      ensures selectedFiles == None && !showAddForm && toasts == []
    {
      books := [];
      loading := true;
      uploading := false;
      editingId := None;
      editTitle := [];
      editDescription := [];
      newTitle := [];
      newDescription := [];
      selectedFiles := None;
      showAddForm := false;
      toasts := [];
    }

    /** The catalogue keeps at most one primary book. */
    predicate OnePrimary()
      reads this
    {
      PrimaryCount(books) <= 1
    }

    /** `fetchBooks`: a successful select replaces the list, an error keeps it. */
    method FetchBooks(reply: BooksReply)
      modifies this`books, this`loading
      ensures books == if reply.BooksRows? then reply.rows else old(books)
      ensures !loading
    {
      if reply.BooksRows? {
        books := reply.rows;
      }
      loading := false;
    }

    /** The "add" button toggles the form. */
    method ToggleAddForm()
      modifies this`showAddForm
      ensures showAddForm == !old(showAddForm)
    {
      showAddForm := !showAddForm;
    }

    /** `handleUpload`, for a session with user id `session.value` (or none)
        and the environment's answer for every file: a missing file list or
        a blank title is refused before any remote call. */
    method HandleUpload(session: Option<string>, attempts: seq<Attempt>) returns (calls: seq<BookCall>)
      requires selectedFiles.Some? ==> |attempts| >= |selectedFiles.value|
      modifies this
      ensures books == old(books) && loading == old(loading) && editingId == old(editingId)
      ensures editTitle == old(editTitle) && editDescription == old(editDescription)
      ensures UploadRejected(old(selectedFiles), old(newTitle)) ==>
        && calls == []
        && uploading == old(uploading)
        && toasts == old(toasts) + [Toast(ErrorTitle, Some(MissingInputText))]
        && FormUnchanged()
      ensures !UploadRejected(old(selectedFiles), old(newTitle)) ==> UploadOutcome(session, attempts, calls)
    {
      if UploadRejected(selectedFiles, newTitle) {
        toasts := toasts + [Toast(ErrorTitle, Some(MissingInputText))];
        return [];
      }
      calls := UploadSelected(session, attempts);
    }

    /** What an accepted upload does: without a session it stops after the
        session lookup with `uploading` still set; with one it runs the batch
        loop, and only a batch without failures clears the form. */
    twostate predicate UploadOutcome(session: Option<string>, attempts: seq<Attempt>, calls: seq<BookCall>)
      requires old(selectedFiles).Some? && |attempts| >= |old(selectedFiles).value|
      reads this
    {
      && (session.None? ==>
            && calls == [GetSession]
            && uploading
            && toasts == old(toasts)
            && FormUnchanged())
      && (session.Some? ==>
            var b := Batch(session.value, old(selectedFiles).value, attempts, old(newTitle),
                           old(newDescription), |old(books)|);
            && calls == [GetSession] + BatchCalls(b)
            && !uploading
            && (FirstFailure(b) == |b.files| ==>
                  && newTitle == [] && newDescription == [] && selectedFiles == None && !showAddForm
                  && toasts == old(toasts) + [Toast(SuccessTitle, Some(UploadedText))])
            && (FirstFailure(b) < |b.files| ==>
                  && FormUnchanged()
                  && toasts == old(toasts) + [Toast(ErrorTitle, Some(FailureMessage(b.attempts[FirstFailure(b)])))]))
    }

    /** `handleUpload` from line 55 on, once the input checks have passed. */
    method UploadSelected(session: Option<string>, attempts: seq<Attempt>) returns (calls: seq<BookCall>)
      requires selectedFiles.Some? && |attempts| >= |selectedFiles.value|
      modifies this
      ensures books == old(books) && loading == old(loading) && editingId == old(editingId)
      ensures editTitle == old(editTitle) && editDescription == old(editDescription)
      ensures UploadOutcome(session, attempts, calls)
    {
      uploading := true;
      calls := [GetSession];
      if session.None? {
        return;
      }
      var b := Batch(session.value, selectedFiles.value, attempts, newTitle, newDescription, |books|);
      var batchCalls, failure := RunBatch(b);
      calls := calls + batchCalls;
      if failure.None? {
        toasts := toasts + [Toast(SuccessTitle, Some(UploadedText))];
        ClearAddForm();
        calls := calls + [RefetchBooks];
      } else {
        toasts := toasts + [Toast(ErrorTitle, Some(failure.value))];
      }
      uploading := false;
    }

    /** Lines 91-94: the add form is emptied and closed. */
    method ClearAddForm()
      modifies this`newTitle, this`newDescription, this`selectedFiles, this`showAddForm
      ensures newTitle == [] && newDescription == [] && selectedFiles == None && !showAddForm
    {
      newTitle := [];
      newDescription := [];
      selectedFiles := None;
      showAddForm := false;
    }

    /** The fields of the add form are as they were. */
    twostate predicate FormUnchanged()
      reads this
    {
      newTitle == old(newTitle) && newDescription == old(newDescription)
      && selectedFiles == old(selectedFiles) && showAddForm == old(showAddForm)
    }

    /** `handleDelete`: the file is removed from storage first; a storage
        error stops there; the row delete follows, and only when it also
        succeeds is the book dropped from the list. */
    method HandleDelete(book: Book, storage: Reply, deletion: Reply) returns (calls: seq<BookCall>)
      modifies this`books, this`toasts
      ensures storage.Err? ==>
        && calls == [RemoveFile(book.filePath)]
        && books == old(books)
        && toasts == old(toasts) + [Toast(ErrorTitle, Some(storage.message))]
      ensures storage.Ok? ==> calls == [RemoveFile(book.filePath), DeleteRow(book.id)]
      ensures storage.Ok? && deletion.Ok? ==>
        books == WithoutBook(old(books), book.id) && toasts == old(toasts) + [Toast(DeletedTitle, None)]
      ensures storage.Ok? && deletion.Err? ==> books == old(books) && toasts == old(toasts)
      ensures PrimaryCount(books) <= PrimaryCount(old(books))
    {
      calls := [RemoveFile(book.filePath)];
      if storage.Err? {
        toasts := toasts + [Toast(ErrorTitle, Some(storage.message))];
        return;
      }
      calls := calls + [DeleteRow(book.id)];
      if deletion.Ok? {
        WithoutBookSpec(books, book.id);
        books := WithoutBook(books, book.id);
        toasts := toasts + [Toast(DeletedTitle, None)];
      }
    }

    /** `handleSetPrimary`: the answer of the first update is not looked at;
        when the second one succeeds exactly the books with the chosen id
        are marked primary. */
    method HandleSetPrimary(bookId: string, reply: Reply) returns (calls: seq<BookCall>)
      modifies this`books, this`toasts
      ensures calls == [ClearPrimary, MarkPrimary(bookId)]
      ensures reply.Ok? ==>
        books == WithPrimary(old(books), bookId) && toasts == old(toasts) + [Toast(PrimarySetTitle, None)]
      ensures reply.Err? ==> books == old(books) && toasts == old(toasts)
      ensures reply.Ok? && UniqueIds(old(books)) ==> OnePrimary()
    {
      calls := [ClearPrimary, MarkPrimary(bookId)];
      if reply.Ok? {
        if UniqueIds(books) {
          SetPrimaryLeavesOnePrimary(books, bookId);
        }
        books := WithPrimary(books, bookId);
        toasts := toasts + [Toast(PrimarySetTitle, None)];
      }
    }

    /** `handleUpdate`: writes the edit fields, an empty description as
        null; on success the list follows and editing ends. */
    method HandleUpdate(bookId: string, reply: Reply) returns (calls: seq<BookCall>)
      modifies this`books, this`editingId, this`toasts
      ensures calls == [UpdateRow(bookId, editTitle, OptionalText(editDescription))]
      ensures reply.Ok? ==>
        && books == WithEdit(old(books), bookId, editTitle, OptionalText(editDescription))
        && editingId == None
        && toasts == old(toasts) + [Toast(UpdatedTitle, None)]
      ensures reply.Err? ==> books == old(books) && editingId == old(editingId) && toasts == old(toasts)
      ensures PrimaryCount(books) == PrimaryCount(old(books))
    {
      var description := OptionalText(editDescription);
      calls := [UpdateRow(bookId, editTitle, description)];
      if reply.Ok? {
        WithEditKeepsPrimaries(books, bookId, editTitle, description);
        books := WithEdit(books, bookId, editTitle, description);
        editingId := None;
        toasts := toasts + [Toast(UpdatedTitle, None)];
      }
    }

    /** `startEdit`: the edit fields take the book's title and description,
        a null description shown as the empty string. */
    method StartEdit(book: Book)
      modifies this`editingId, this`editTitle, this`editDescription
      ensures editingId == Some(book.id) && editTitle == book.title
      ensures editDescription == book.description.GetOr([])
    {
      editingId := Some(book.id);
      editTitle := book.title;
      editDescription := book.description.GetOr([]);
    }
  }

  /** Opening the `k`-th book for editing and saving it untouched, with the
      update succeeding, leaves the list as it was (for distinct ids and a
      description that is not the empty string). */
  method EditAndSaveUnchanged(m: BookManager, k: nat) returns (calls: seq<BookCall>)
    requires UniqueIds(m.books) && k < |m.books| && m.books[k].description != Some([])
    modifies m
    ensures m.books == old(m.books) && m.editingId == None
    ensures calls == [UpdateRow(old(m.books)[k].id, old(m.books)[k].title, old(m.books)[k].description)]
  {
    var b := m.books[k];
    m.StartEdit(b);
    EditWithoutChangesIsNoOp(m.books, k);
    calls := m.HandleUpdate(b.id, Ok);
  }
}
