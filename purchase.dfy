/** The purchase page (src/pages/Purchase.tsx): the name and age form, its
    schema, the lead insert whose failure is ignored, and the Telegram link
    the visitor is sent to. */
module Purchase {
  import opened Wrappers
  import opened Text
  import opened IntParsing

  const AuthPath: string := "/auth"
  const NameTooShortText: string := "Ism kamida 2 ta belgi bo'lishi kerak"
  /** zod's default message for `.max(100)` on a string. */
  const NameTooLongText: string := "String must contain at most 100 character(s)"
  /** zod's message for `z.number()` given NaN. */
  const AgeNotNumberText: string := "Expected number, received nan"
  const AgeTooLowText: string := "Yosh kamida 16 bo'lishi kerak"
  const AgeTooHighText: string := "Yosh 65 dan oshmasligi kerak"
  const TelegramBase: string := "https://t.me/Dew0277?text="
  const MessageHead: string := "Salom! Men kitob sotib olmoqchiman.\nIsm: "
  const AgeLabel: string := "\nYosh: "

  const MinAge: int := 16
  const MaxAge: int := 65

  /** The issues of `fullName: z.string().trim().min(2).max(100)`: the
      length checks see the trimmed name. */
  function NameIssues(fullName: string): seq<string> {
    var n := Trim(fullName);
    (if |n| < 2 then [NameTooShortText] else []) + (if |n| > 100 then [NameTooLongText] else [])
  }

  /** The issues of `age: z.number().min(16).max(65)` for `parseInt(age)`;
      NaN stops at the type check. */
  function AgeIssues(age: Option<int>): seq<string> {
    match age
    case None => [AgeNotNumberText]
    case Some(a) => (if a < MinAge then [AgeTooLowText] else []) + (if a > MaxAge then [AgeTooHighText] else [])
  }

  /** All issues of `purchaseSchema`, in the order of its fields. */
  function PurchaseIssues(fullName: string, ageText: string): seq<string> {
    NameIssues(fullName) + AgeIssues(ParseInt(ageText))
  }

  /** The outcome of `safeParse`: the first issue's message, or the parsed data. */
  datatype Parsed = Rejected(message: string) | Accepted(fullName: string, age: int)

  function ParsePurchase(fullName: string, ageText: string): (r: Parsed)
    ensures r.Accepted? <==>
      2 <= |Trim(fullName)| <= 100 && ParseInt(ageText).Some?
      && MinAge <= ParseInt(ageText).value <= MaxAge
    ensures r.Accepted? ==> r.fullName == Trim(fullName) && ParseInt(ageText) == Some(r.age)
  {
    var issues := PurchaseIssues(fullName, ageText);
    if issues != [] then Rejected(issues[0])
    else Accepted(Trim(fullName), ParseInt(ageText).value)
  }

  /** A name issue is reported before any age issue; the age's message is
      shown only for a valid name, and a non-numeric age is "not a number". */
  lemma FirstIssueOrder(fullName: string, ageText: string)
    ensures NameIssues(fullName) != [] ==>
      ParsePurchase(fullName, ageText) == Rejected(NameIssues(fullName)[0])
    ensures |Trim(fullName)| < 2 ==> ParsePurchase(fullName, ageText) == Rejected(NameTooShortText)
    ensures |Trim(fullName)| > 100 ==> ParsePurchase(fullName, ageText) == Rejected(NameTooLongText)
    ensures NameIssues(fullName) == [] && ParseInt(ageText).None? ==>
      ParsePurchase(fullName, ageText) == Rejected(AgeNotNumberText)
    ensures var a := ParseInt(ageText);
      NameIssues(fullName) == [] && a.Some? && a.value < MinAge ==>
        ParsePurchase(fullName, ageText) == Rejected(AgeTooLowText)
    ensures var a := ParseInt(ageText);
      NameIssues(fullName) == [] && a.Some? && a.value > MaxAge ==>
        ParsePurchase(fullName, ageText) == Rejected(AgeTooHighText)
  {
  }

  /** An age typed as a whole number from 16 to 65 passes the age check,
      and a blank age field never does. */
  lemma AgeInputs(n: nat, blank: string)
    requires AllSpace(blank)
    ensures AgeIssues(ParseInt(NatToString(n))) == [] <==> MinAge <= n <= MaxAge
    ensures AgeIssues(ParseInt(blank)) == [AgeNotNumberText]
  {
    ParseIntRoundTrip(n);
    ParseIntBlank(blank);
  }

  /** The text of the Telegram message before `encodeURIComponent`. */
  function TelegramMessage(fullName: string, age: nat): string {
    MessageHead + fullName + AgeLabel + NatToString(age)
  }

  /** A line break in `s`. */
  predicate HasNewline(s: string) {
    exists i :: 0 <= i < |s| && s[i] == '\n'
  }

  /** For names without line breaks (a single-line input), the message
      determines the name and the age it was built from. */
  lemma TelegramMessageInjective(n1: string, a1: nat, n2: string, a2: nat)
    requires !HasNewline(n1) && !HasNewline(n2)
    requires TelegramMessage(n1, a1) == TelegramMessage(n2, a2)
    ensures n1 == n2 && a1 == a2
  {
    var m1 := TelegramMessage(n1, a1);
    var m2 := TelegramMessage(n2, a2);
    var h := |MessageHead|;
    if |n1| < |n2| {
      MessageLineBreak(n1, a1);
      MessageLineBreak(n2, a2);
      assert false;
    } else if |n2| < |n1| {
      MessageLineBreak(n1, a1);
      MessageLineBreak(n2, a2);
      assert false;
    }
    assert n1 == m1[h..h + |n1|];
    assert n2 == m2[h..h + |n2|];
    var k := h + |n1| + |AgeLabel|;
    assert NatToString(a1) == m1[k..];
    assert NatToString(a2) == m2[k..];
    NatToStringInjective(a1, a2);
  }

  /** The first line break after the greeting ends the name. */
  lemma MessageLineBreak(n: string, a: nat)
    requires !HasNewline(n)
    ensures var m := TelegramMessage(n, a);
      && m[|MessageHead| + |n|] == '\n'
      && forall j :: |MessageHead| <= j < |MessageHead| + |n| ==> m[j] != '\n'
  {
    var m := TelegramMessage(n, a);
    forall j | |MessageHead| <= j < |MessageHead| + |n| ensures m[j] != '\n' {
      assert m[j] == n[j - |MessageHead|];
    }
  }

  /** The tab `window.open` opens: the base link and the message, which is
      percent-encoded in the URL (the encoding is not part of this model). */
  datatype TelegramLink = TelegramLink(message: string)

  /** The row handed to the `leads` insert. */
  datatype LeadInsert = LeadInsert(fullName: string, age: int, userId: Option<string>)

  /** The page's state. */
  class PurchasePage {
    var fullName: string
    var ageText: string
    var error: Option<string>
    var loading: bool
    var navigatedTo: Option<string>

    constructor ()
      ensures fullName == [] && ageText == [] && error == None && loading && navigatedTo == None
    {
      fullName := [];
      ageText := [];
      error := None;
      loading := true;
      navigatedTo := None;
    }

    /** `checkAuth` on mount: without a session the visitor goes to `/auth`
        and the spinner stays; with one the form is shown. */
    method CheckAuth(hasSession: bool)
      modifies this`loading, this`navigatedTo
      ensures !hasSession ==> navigatedTo == Some(AuthPath) && loading == old(loading)
      ensures hasSession ==> !loading && navigatedTo == old(navigatedTo)
    {
      if !hasSession {
        navigatedTo := Some(AuthPath);
        return;
      }
      loading := false;
    }

    /** `handleSubmit`, with the session's user id and the insert's answer as
        inputs: a rejected form sets `error` to the first issue and goes no
        further; an accepted one inserts the lead with the trimmed name and
        then opens Telegram whether or not the insert failed. */
    method HandleSubmit(sessionUser: Option<string>, insertReply: Reply)
      returns (insert: Option<LeadInsert>, link: Option<TelegramLink>)
      modifies this`error
      ensures ParsePurchase(fullName, ageText).Rejected? ==>
        && error == Some(ParsePurchase(fullName, ageText).message)
        && insert == None && link == None
      ensures ParsePurchase(fullName, ageText).Accepted? ==>
        var p := ParsePurchase(fullName, ageText);
        && error == None
        && insert == Some(LeadInsert(p.fullName, p.age, sessionUser))
        && p.age >= 0
        && link == Some(TelegramLink(TelegramMessage(p.fullName, p.age)))
    {
      error := None;
      var parsed := ParsePurchase(fullName, ageText);
      if parsed.Rejected? {
        error := Some(parsed.message);
        return None, None;
      }
      insert := Some(LeadInsert(parsed.fullName, parsed.age, sessionUser));
      // a failed insert is only logged: `insertReply` does not change what follows
      link := Some(TelegramLink(TelegramMessage(parsed.fullName, parsed.age)));
    }
  }

  /** The full link: the base followed by the message (unencoded here), so
      the message can be read back from the link. */
  function LinkText(l: TelegramLink): (u: string)
    ensures StartsWith(u, TelegramBase)
    ensures |u| == |TelegramBase| + |l.message| && u[|TelegramBase|..] == l.message
  {
    var u := TelegramBase + l.message;
    assert u[..|TelegramBase|] == TelegramBase;
    u
  }
}
