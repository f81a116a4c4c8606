/** The CV card of the dashboard (src/components/CVSubmission.tsx): a monthly
    submission window, file checks, a simulated progress bar and the update
    that marks the lead's CV as submitted. */
module CvSubmission {
  import opened Wrappers
  import opened Text
  import opened Calendar

  /** `5 * 1024 * 1024` bytes. */
  const MaxCvBytes: int := 5 * 1024 * 1024

  const TooLargeTitle: string := "Fayl juda katta"
  const NotPdfTitle: string := "Noto'g'ri format"
  const SubmittedTitle: string := "CV muvaffaqiyatli yuborildi!"
  const FailedTitle: string := "Xatolik yuz berdi"

  /** `isSubmissionWindow`: the 5th to the 10th of the month, inclusive. */
  predicate IsSubmissionWindow(dayOfMonth: int) { 5 <= dayOfMonth <= 10 }

  /** `getNextWindowDate`: `new Date(year, month + 1, 5)`, local midnight. */
  function NextWindowDate(today: LocalDateTime): (d: LocalDateTime)
    requires today.Valid()
    ensures d.Valid() && d.day == 5 && d.msOfDay == 0
    ensures d.ym.Index() == today.ym.Index() + 1
  {
    LocalDateTime(NextMonth(today.ym), 5, 0)
  }

  /** The date shown is always the 5th of the following month, after today,
      even on the 1st to the 4th when this month's window has not opened
      yet; in December it is the 5th of January of the next year. */
  lemma NextWindowDateSpec(today: LocalDateTime)
    requires today.Valid()
    ensures Before(today, NextWindowDate(today))
    ensures today.day < 5 ==> NextWindowDate(today).ym != today.ym
    ensures today.ym.month == 11 ==> NextWindowDate(today).ym == YearMonth(today.ym.year + 1, 0)
  {
  }

  /** The part of a browser `File` the card reads. */
  datatype CvFile = CvFile(name: string, size: nat, mimeType: string)

  datatype Rejection = TooLarge | NotPdf

  /** The checks of `handleFileChange` in their order: size first, then type. */
  function CheckFile(f: CvFile): Option<Rejection> {
    if f.size > MaxCvBytes then Some(TooLarge)
    else if !Contains(f.mimeType, "pdf") then Some(NotPdf)
    else None
  }

  /** A file is accepted exactly when it is at most 5 MiB and its MIME type
      contains "pdf"; an oversized file is refused for its size whatever its
      type; a file of exactly 5 MiB passes the size check. */
  lemma CheckFileSpec(f: CvFile)
    ensures CheckFile(f).None? <==>
      f.size <= MaxCvBytes && exists i :: OccursAt(f.mimeType, "pdf", i)
    ensures f.size > MaxCvBytes ==> CheckFile(f) == Some(TooLarge)
    ensures f.size == MaxCvBytes ==> CheckFile(f) != Some(TooLarge)
  {
    ContainsIffOccurs(f.mimeType, "pdf");
  }

  /** One step of the progress interval: `Math.min(prev + 10, 90)`. */
  function ProgressStep(prev: int): int {
    if prev + 10 <= 90 then prev + 10 else 90
  }

  /** The progress after `k` interval steps from 0. */
  function ProgressAfter(k: nat): int {
    if k == 0 then 0 else ProgressStep(ProgressAfter(k - 1))
  }

  /** After `k` steps from 0 the bar reads `min(10 k, 90)`: it never passes
      90 while the update is awaited. */
  lemma {:induction false} ProgressAfterSpec(k: nat)
    ensures ProgressAfter(k) == if 10 * k <= 90 then 10 * k else 90
    ensures 0 <= ProgressAfter(k) <= 90
  {
    if k > 0 {
      ProgressAfterSpec(k - 1);
    }
  }

  /** What the card shows. */
  datatype CvView = AlreadySubmitted | WindowClosed(next: LocalDateTime) | UploadForm(submitEnabled: bool)

  /** The three returns of the render: "already submitted" takes precedence
      over the window check; the submit button needs a file and no upload
      in flight. */
  function ViewFor(hasCvSubmitted: bool, today: LocalDateTime, hasFile: bool, uploading: bool): CvView
    requires today.Valid()
  {
    if hasCvSubmitted then AlreadySubmitted
    else if !IsSubmissionWindow(today.day) then WindowClosed(NextWindowDate(today))
    else UploadForm(hasFile && !uploading)
  }

  /** The form appears exactly when no CV was submitted and the window is open. */
  lemma ViewPrecedence(hasCvSubmitted: bool, today: LocalDateTime, hasFile: bool, uploading: bool)
    requires today.Valid()
    ensures hasCvSubmitted ==> ViewFor(hasCvSubmitted, today, hasFile, uploading) == AlreadySubmitted
    ensures ViewFor(hasCvSubmitted, today, hasFile, uploading).UploadForm? <==>
      !hasCvSubmitted && 5 <= today.day <= 10
  {
  }

  /** The backend call the card issues: the `leads` update that sets
      `has_cv_submitted` on the row with this id. The file itself is not
      sent anywhere. */
  datatype CvCall = MarkCvSubmitted(leadId: string)

  /** The component's state; `leadId` is its prop. */
  class CvForm {
    const leadId: string
    var file: Option<CvFile>
    var uploading: bool
    var uploadProgress: int
    var toasts: seq<string>
    var calls: seq<CvCall>

    constructor (leadId: string)
      ensures this.leadId == leadId
      ensures file == None && !uploading && uploadProgress == 0 && toasts == [] && calls == []
    {
      this.leadId := leadId;
      calls := [];
      file := None;
      uploading := false;
      uploadProgress := 0;
      toasts := [];
    }

    /** `handleFileChange`: no file selected does nothing; a rejected file
        raises its toast and keeps the previous selection. */
    method HandleFileChange(selected: Option<CvFile>)
      modifies this`file, this`toasts
      ensures selected.None? ==> file == old(file) && toasts == old(toasts)
      ensures selected.Some? && CheckFile(selected.value) == Some(TooLarge) ==>
        file == old(file) && toasts == old(toasts) + [TooLargeTitle]
      ensures selected.Some? && CheckFile(selected.value) == Some(NotPdf) ==>
        file == old(file) && toasts == old(toasts) + [NotPdfTitle]
      ensures selected.Some? && CheckFile(selected.value).None? ==>
        file == selected && toasts == old(toasts)
    {
      if selected.Some? {
        var f := selected.value;
        if f.size > MaxCvBytes {
          toasts := toasts + [TooLargeTitle];
          return;
        }
        if !Contains(f.mimeType, "pdf") {
          toasts := toasts + [NotPdfTitle];
          return;
        }
        file := selected;
      }
    }

    /** `handleSubmit` up to its `await`: without a file nothing happens;
        otherwise the upload starts with the bar at 0 and the update of the
        lead's row is issued. */
    method BeginSubmit() returns (started: bool)
      modifies this`uploading, this`uploadProgress, this`calls
      ensures started == file.Some?
      ensures started ==> uploading && uploadProgress == 0 && calls == old(calls) + [MarkCvSubmitted(leadId)]
      ensures !started ==>
        uploading == old(uploading) && uploadProgress == old(uploadProgress) && calls == old(calls)
    {
      if file.None? {
        return false;
      }
      uploading := true;
      uploadProgress := 0;
      calls := calls + [MarkCvSubmitted(leadId)];
      started := true;
    }

    /** One firing of the 200 ms progress interval while the update is awaited. */
    method ProgressTick()
      modifies this`uploadProgress
      ensures uploadProgress == ProgressStep(old(uploadProgress))
      ensures old(uploadProgress) <= 90 ==> uploadProgress <= 90
    {
      uploadProgress := ProgressStep(uploadProgress);
    }

    /** `handleSubmit` after its `await`: the bar jumps to 100, the parent's
        `onSubmitted` is called (`notify`) only when the update succeeded,
        and `uploading` is cleared by the `finally`. */
    method FinishSubmit(reply: Reply) returns (notify: bool)
      modifies this`uploading, this`uploadProgress, this`toasts
      ensures uploadProgress == 100 && !uploading
      ensures notify <==> reply.Ok?
      ensures toasts == old(toasts) + [if reply.Ok? then SubmittedTitle else FailedTitle]
    {
      uploadProgress := 100;
      if reply.Err? {
        toasts := toasts + [FailedTitle];
        notify := false;
      } else {
        toasts := toasts + [SubmittedTitle];
        notify := true;
      }
      uploading := false;
    }

    function View(hasCvSubmitted: bool, today: LocalDateTime): CvView
      requires today.Valid()
      reads this
    {
      ViewFor(hasCvSubmitted, today, file.Some?, uploading)
    }
  }

  /** A whole submission with `ticks` interval firings before the reply:
      with a file the bar ends at 100, the reply's toast is raised and the
      one update of the lead's row is issued; without a file nothing
      changes. The selection is kept either way. */
  method SubmitWithTicks(form: CvForm, ticks: nat, reply: Reply) returns (notify: bool)
    modifies form
    ensures notify <==> old(form.file).Some? && reply.Ok?
    ensures old(form.file).Some? ==> form.uploadProgress == 100 && !form.uploading
    ensures old(form.file).None? ==>
      form.uploading == old(form.uploading) && form.uploadProgress == old(form.uploadProgress)
    ensures form.file == old(form.file)
    ensures form.toasts == old(form.toasts) +
      if old(form.file).None? then [] else [if reply.Ok? then SubmittedTitle else FailedTitle]
    ensures form.calls == old(form.calls) + if old(form.file).Some? then [MarkCvSubmitted(form.leadId)] else []
  {
    var started := form.BeginSubmit();
    if !started {
      return false;
    }
    var k := 0;
    while k < ticks
      invariant 0 <= k <= ticks
      invariant form.uploadProgress == ProgressAfter(k) && form.uploadProgress <= 90
      invariant form.file == old(form.file) && form.toasts == old(form.toasts)
      invariant form.calls == old(form.calls) + [MarkCvSubmitted(form.leadId)]
    {
      form.ProgressTick();
      k := k + 1;
    }
    notify := form.FinishSubmit(reply);
  }
}
