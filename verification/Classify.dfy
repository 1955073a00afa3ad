/**
 * How a failed attempt is classified (retry.rs): by the typed causes of its error when it happens, and by the text
 * recorded for it later.
 */
module Classify {
  import opened Common
  import opened Retry

  predicate OccursAt(text: string, part: string, i: nat) { i + |part| <= |text| && text[i..i + |part|] == part }

  predicate Contains(text: string, part: string) { exists i :: 0 <= i <= |text| && OccursAt(text, part, i) }

  predicate ContainsAny(text: string, parts: seq<string>) {
    exists k :: 0 <= k < |parts| && Contains(text, parts[k])
  }

  const PERMANENT_PROBLEMS: seq<string> := [
    "rejectedIdentifier", "unsupportedIdentifier", "badCSR", "caa", "badSignatureAlgorithm", "badPublicKey",
    "externalAccountRequired", "accountDoesNotExist", "invalidContact", "unsupportedContact", "malformed"
  ]

  const TRANSIENT_PROBLEMS: seq<string> := ["badNonce", "rateLimited", "serverInternal"]

  const PERMANENT_TEXTS: seq<string> := [
    "Failed to persist certificate state", " are required", "is not a P-256 private JWK", "is not base64url",
    "CSR is not PEM", "did not offer dns-01", "a certificate for another key"
  ]

  const TRANSIENT_TEXTS: seq<string> := [
    "returned no nonce", "error decoding response body", "error sending request", "operation timed out",
    "connection closed", "connection reset", "status server error", "authorization ended in pending",
    "An identical record already exists", "ACME directory"
  ]

  const PROBLEM_PREFIX: string := "acme:error:"

  /** A text that names a problem of the list. */
  predicate NamesProblem(text: string, problems: seq<string>) {
    exists k :: 0 <= k < |problems| && Contains(text, PROBLEM_PREFIX + problems[k])
  }

  function ClassifyStatus(status: nat, after: Option<nat>): Class {
    if status == 429 || 500 <= status <= 599 then Transient(after)
    else if status == 408 then Transient(None)
    else Unknown
  }

  // --- By the recorded text --------------------------------------------------------------------------------------

  const HTTP_MARK: string := "| HTTP "

  /** Where a part first occurs. */
  function Find(text: string, part: string, from: nat): Option<nat>
    requires from <= |text|
    decreases |text| - from
  {
    if from + |part| > |text| then None
    else if text[from..from + |part|] == part then Some(from)
    else if from == |text| then None
    else Find(text, part, from + 1)
  }

  predicate IsDigit(c: char) { '0' <= c <= '9' }

  function Digits(s: string): Option<nat> {
    if s == [] then Some(0)
    else if !IsDigit(s[|s| - 1]) then None
    else
      match Digits(s[..|s| - 1])
      case None => None
      case Some(n) => Some(10 * n + (s[|s| - 1] as nat - '0' as nat))
  }

  /** A number as the standard library reads it: digits, at least one, after a sign if there is one. */
  function ParseNumber(s: string): Option<nat> {
    if s == [] then None
    else if s[0] == '+' then if |s| == 1 then None else Digits(s[1..])
    else Digits(s)
  }

  /** The status a text of a failed request carries after its mark. */
  function StatusIn(text: string): Option<nat> {
    match Find(text, HTTP_MARK, 0)
    case None => None
    case Some(at) =>
      var start := at + |HTTP_MARK|;
      if start > |text| then None
      else ParseNumber(if start + 3 <= |text| then text[start..start + 3] else text[start..])
  }

  function ClassifyReason(text: string): Class {
    if ContainsAny(text, PERMANENT_TEXTS) || NamesProblem(text, PERMANENT_PROBLEMS) then Permanent
    else if NamesProblem(text, TRANSIENT_PROBLEMS) || ContainsAny(text, TRANSIENT_TEXTS) then Transient(None)
    else if StatusIn(text).Some? then ClassifyStatus(StatusIn(text).value, None)
    else Unknown
  }

  // --- By the error ----------------------------------------------------------------------------------------------

  /**
   * A cause of an error: one that says it will pass, an ACME problem, a failed request with the status it got or with
   * whether it failed on the way, anything else, or the refusal of a job, which ends the job at once.
   */
  datatype Cause =
    | Passing(after: Option<nat>)
    | Problem(status: nat, kind: string, after: Option<nat>)
    | Request(answered: Option<nat>, onTheWay: bool)
    | Other
    | Refusal

  /** An error's causes, the outermost first, and its whole text, which is what is recorded. */
  datatype Error = Error(causes: seq<Cause>, text: string)

  /** What follows the last colon. */
  function LastPart(kind: string): string {
    if kind == [] then [] else if kind[|kind| - 1] == ':' then [] else LastPart(kind[..|kind| - 1]) + [kind[|kind| - 1]]
  }

  function ClassifyProblem(status: nat, kind: string, after: Option<nat>): Class {
    if LastPart(kind) in PERMANENT_PROBLEMS then Permanent
    else if LastPart(kind) in TRANSIENT_PROBLEMS then Transient(after)
    else ClassifyStatus(status, after)
  }

  /** What a cause decides on its own, if anything. */
  function Decides(c: Cause): Option<Class> {
    match c
    case Passing(after) => Some(Transient(after))
    case Problem(status, kind, after) => Some(ClassifyProblem(status, kind, after))
    case Request(answered, onTheWay) =>
      if answered.Some? then Some(ClassifyStatus(answered.value, None)) else if onTheWay then Some(Transient(None))
      else None
    case Other => None
    case Refusal => Some(Permanent)
  }

  /** The first cause that decides, and the text when none does. */
  function ClassifyCauses(causes: seq<Cause>, text: string): Class {
    if causes == [] then ClassifyReason(text)
    else if Decides(causes[0]).Some? then Decides(causes[0]).value
    else ClassifyCauses(causes[1..], text)
  }

  function ClassifyError(e: Error): Class { ClassifyCauses(e.causes, e.text) }

  /** The recorded text reads as transient, and the error was not. */
  predicate Misread(e: Error) { ClassifyReason(e.text).Transient? && !ClassifyError(e).Transient? }

  /** Only an ACME problem, a failed request with a status, or a refusal is ever misread. */
  lemma {:induction false} OnlyTypedErrorsAreMisread(causes: seq<Cause>, text: string)
    requires Misread(Error(causes, text))
    ensures exists i :: 0 <= i < |causes| && Decides(causes[i]).Some? && !Decides(causes[i]).value.Transient?
                        && forall j :: 0 <= j < i ==> Decides(causes[j]).None?
  {
    hide ClassifyReason, ClassifyProblem;
    if Decides(causes[0]).Some? {
      assert !Decides(causes[0]).value.Transient?;
    } else {
      OnlyTypedErrorsAreMisread(causes[1..], text);
      var i :| 0 <= i < |causes[1..]| && Decides(causes[1..][i]).Some? && !Decides(causes[1..][i]).value.Transient?
               && forall j :: 0 <= j < i ==> Decides(causes[1..][j]).None?;
      assert Decides(causes[i + 1]).Some? && !Decides(causes[i + 1]).value.Transient?;
      forall j | 0 <= j < i + 1 ensures Decides(causes[j]).None? {
        if j > 0 { assert causes[j] == causes[1..][j - 1]; }
      }
    }
  }

  /**
   * What an answered request that failed comes to: one the server may answer later (408, 429, 5xx) is tried again until
   * the hour of the next attempt is a day after the job was queued; any other three times.
   */
  lemma AnsweredRequestIsRetried(status: nat, text: string, attempts: nat, base: nat, queuedAt: nat, now: nat,
                                 jitter: real)
    ensures var e := Error([Request(Some(status), false)], text);
            NextAttempt(ClassifyError(e), attempts, base, queuedAt, now, jitter).Some?
            <==> if status == 408 || status == 429 || 500 <= status < 600
                 then now + Backoff(base, attempts, jitter) <= queuedAt + 86_400_000
                 else attempts < 3
  {
    hide ClassifyReason, Backoff;
    var causes := [Request(Some(status), false)];
    assert causes[0] == Request(Some(status), false);
  }

  /** Without a type that decides, an error is what its text says; a transient cause decides at once. */
  lemma UntypedErrorIsItsText(causes: seq<Cause>, text: string)
    requires forall i :: 0 <= i < |causes| ==> causes[i] == Other || causes[i] == Request(None, false)
    ensures ClassifyError(Error(causes, text)) == ClassifyReason(text)
    ensures forall after, rest :: ClassifyError(Error(causes + ([Passing(after)] + rest), text)) == Transient(after)
  {
    hide ClassifyReason;
    forall after, rest ensures ClassifyError(Error(causes + ([Passing(after)] + rest), text)) == Transient(after) {
      FirstDecides(causes, Passing(after), rest, text);
    }
    NoneDecides(causes, text);
  }

  lemma {:induction false} NoneDecides(causes: seq<Cause>, text: string)
    requires forall i :: 0 <= i < |causes| ==> Decides(causes[i]).None?
    ensures ClassifyCauses(causes, text) == ClassifyReason(text)
  {
    hide ClassifyReason, Decides;
    if causes != [] { NoneDecides(causes[1..], text); }
  }

  lemma {:induction false} FirstDecides(causes: seq<Cause>, cause: Cause, rest: seq<Cause>, text: string)
    requires (forall i :: 0 <= i < |causes| ==> Decides(causes[i]).None?) && Decides(cause).Some?
    ensures ClassifyCauses(causes + ([cause] + rest), text) == Decides(cause).value
  {
    hide ClassifyReason, Decides;
    var all := causes + ([cause] + rest);
    if causes == [] {
      assert all[0] == cause;
    } else {
      assert all[0] == causes[0] && all[1..] == causes[1..] + ([cause] + rest);
      FirstDecides(causes[1..], cause, rest, text);
    }
  }

  // --- Where both agree --------------------------------------------------------------------------------------------

  const NAMESPACE: string := "urn:ietf:params:acme:error:"

  lemma {:induction false} LastPartIsAfterColon(before: string, name: string)
    requires before != [] && before[|before| - 1] == ':' && forall i :: 0 <= i < |name| ==> name[i] != ':'
    ensures LastPart(before + name) == name
    decreases |name|
  {
    var kind := before + name;
    if name == [] {
      assert kind == before;
    } else {
      var n := |name| - 1;
      assert kind[..|kind| - 1] == before + name[..n];
      LastPartIsAfterColon(before, name[..n]);
      assert name == name[..n] + [name[n]];
    }
  }

  lemma NamesAreNamed(name: string, rest: string)
    ensures Contains(NAMESPACE + name + rest, PROBLEM_PREFIX + name)
  {
    var text, part := NAMESPACE + name + rest, PROBLEM_PREFIX + name;
    assert NAMESPACE == "urn:ietf:params:" + PROBLEM_PREFIX;
    assert text == "urn:ietf:params:" + part + rest;
    assert OccursAt(text, part, |"urn:ietf:params:"|);
  }

  lemma NamesHaveNoColon(k: nat)
    requires k < |PERMANENT_PROBLEMS|
    ensures forall i :: 0 <= i < |PERMANENT_PROBLEMS[k]| ==> PERMANENT_PROBLEMS[k][i] != ':'
  {
  }

  /**
   * A problem of a listed permanent type of the ACME namespace is permanent both ways, whatever its status, detail and
   * body: for these no reading is misled.
   */
  lemma ListedProblemIsPermanent(k: nat, status: nat, after: Option<nat>, detail: string, number: string, body: string)
    requires k < |PERMANENT_PROBLEMS|
    ensures var kind := NAMESPACE + PERMANENT_PROBLEMS[k];
            var e := Error([Problem(status, kind, after)], ProblemText(kind, detail, number, body));
            ClassifyError(e) == Permanent && ClassifyReason(e.text) == Permanent
  {
    var name := PERMANENT_PROBLEMS[k];
    var kind := NAMESPACE + name;
    NamesHaveNoColon(k);
    LastPartIsAfterColon(NAMESPACE, name);
    var rest := ": " + detail + " | HTTP " + number + " | " + body;
    NamesAreNamed(name, rest);
    assert ProblemText(kind, detail, number, body) == NAMESPACE + name + rest;
    hide LastPart;
    assert NamesProblem(ProblemText(kind, detail, number, body), PERMANENT_PROBLEMS);
    assert [Problem(status, kind, after)][0] == Problem(status, kind, after);
  }

  /**
   * A problem of a listed transient type passes, after what the server asked for, and so does a request that failed on
   * the way, whatever their texts say.
   */
  lemma ListedProblemPasses(k: nat, status: nat, after: Option<nat>, text: string)
    requires k < |TRANSIENT_PROBLEMS|
    ensures ClassifyError(Error([Problem(status, NAMESPACE + TRANSIENT_PROBLEMS[k], after)], text)) == Transient(after)
    ensures ClassifyError(Error([Request(None, true)], text)) == Transient(None)
  {
    var name := TRANSIENT_PROBLEMS[k];
    assert forall i :: 0 <= i < |name| ==> name[i] != ':';
    LastPartIsAfterColon(NAMESPACE, name);
    TransientIsNotPermanent(k);
    hide LastPart, ClassifyReason;
    var causes := [Problem(status, NAMESPACE + name, after)];
    assert causes[0] == Problem(status, NAMESPACE + name, after);
    assert [Request(None, true)][0] == Request(None, true);
  }

  lemma TransientIsNotPermanent(k: nat)
    requires k < |TRANSIENT_PROBLEMS|
    ensures TRANSIENT_PROBLEMS[k] !in PERMANENT_PROBLEMS
  {
    var key := if k == 0 then 'N' else 'r';
    var at: nat := if k == 0 then 3 else if k == 1 then 0 else 2;
    assert TRANSIENT_PROBLEMS[k][at] == key;
    forall p | p in PERMANENT_PROBLEMS ensures p != TRANSIENT_PROBLEMS[k] {
      assert |p| <= at || p[at] != key || |p| != |TRANSIENT_PROBLEMS[k]|;
    }
  }

  /** The text of a failed request, without anything listed, is read by the status after its mark. */
  lemma StatusIsRead(before: string, a: nat, b: nat, c: nat, rest: string)
    requires a < 10 && b < 10 && c < 10 && '|' !in before
    ensures var text := before + "| HTTP " + [Digit(a), Digit(b), Digit(c)] + rest;
            && StatusIn(text) == Some(100 * a + 10 * b + c)
            && (!ContainsAny(text, PERMANENT_TEXTS) && !NamesProblem(text, PERMANENT_PROBLEMS)
                && !ContainsAny(text, TRANSIENT_TEXTS) && !NamesProblem(text, TRANSIENT_PROBLEMS) ==>
                  ClassifyReason(text) == ClassifyStatus(100 * a + 10 * b + c, None))
  {
    var number := [Digit(a), Digit(b), Digit(c)];
    var text := before + "| HTTP " + number + rest;
    FindsFirst(text, before, 0);
    var start := |before| + |HTTP_MARK|;
    assert text[start..start + 3] == number;
    assert number[..2] == [Digit(a), Digit(b)] && [Digit(a), Digit(b)][..1] == [Digit(a)] && [Digit(a)][..0] == [];
    assert Digits([]) == Some(0);
    assert Digits([Digit(a)]) == Some(a);
    assert Digits([Digit(a), Digit(b)]) == Some(10 * a + b);
    assert Digits(number) == Some(100 * a + 10 * b + c);
  }

  function Digit(n: nat): char
    requires n < 10
  {
    '0' + n as char
  }

  lemma {:induction false} FindsFirst(text: string, before: string, from: nat)
    requires '|' !in before && from <= |before| && |before| + |HTTP_MARK| <= |text|
    requires text[..|before|] == before && text[|before|..|before| + |HTTP_MARK|] == HTTP_MARK
    ensures Find(text, HTTP_MARK, from) == Some(|before|)
    decreases |before| - from
  {
    if from < |before| {
      assert text[from] == before[from];
      assert text[from..from + |HTTP_MARK|][0] != HTTP_MARK[0];
      FindsFirst(text, before, from + 1);
    }
  }

  // --- A misread error -------------------------------------------------------------------------------------------

  /** The text of a problem with a detail: its type and detail, the status and the start of the body. */
  function ProblemText(kind: string, detail: string, status: string, body: string): string {
    kind + ": " + detail + " | HTTP " + status + " | " + body
  }

  lemma HasItsChars(text: string, part: string, c: char)
    requires Contains(text, part) && c in part
    ensures c in text
  {
    var i :| 0 <= i <= |text| && OccursAt(text, part, i);
    var k :| 0 <= k < |part| && part[k] == c;
    assert text[i + k] == text[i..i + |part|][k];
  }

  lemma MissesChar(text: string, part: string, c: char)
    requires c in part && c !in text
    ensures !Contains(text, part)
  {
    if Contains(text, part) { HasItsChars(text, part, c); }
  }

  /** None of these characters, one of which is in every text that reads as permanent. */
  predicate Plain(c: char) { c != 'F' && c != 'q' && c != 'J' && c != 'b' && c != 'M' && c != 'f' && c != 'm' }

  predicate AllPlain(text: string) { forall i :: 0 <= i < |text| ==> Plain(text[i]) }

  lemma NothingPermanent(text: string)
    requires AllPlain(text)
    ensures !ContainsAny(text, PERMANENT_TEXTS) && !NamesProblem(text, PERMANENT_PROBLEMS)
  {
    forall k | 0 <= k < |PERMANENT_TEXTS| ensures !Contains(text, PERMANENT_TEXTS[k]) {
      var c := KeyOf(k);
      MissesChar(text, PERMANENT_TEXTS[k], c);
    }
    forall k | 0 <= k < |PERMANENT_PROBLEMS| ensures !Contains(text, PROBLEM_PREFIX + PERMANENT_PROBLEMS[k]) {
      assert PROBLEM_PREFIX[2] == 'm' && (PROBLEM_PREFIX + PERMANENT_PROBLEMS[k])[2] == 'm';
      MissesChar(text, PROBLEM_PREFIX + PERMANENT_PROBLEMS[k], 'm');
    }
  }

  lemma KeyOf(k: nat) returns (c: char)
    requires k < |PERMANENT_TEXTS|
    ensures c in PERMANENT_TEXTS[k] && !Plain(c)
  {
    assert PERMANENT_TEXTS[0][0] == 'F' && PERMANENT_TEXTS[1][7] == 'q' && PERMANENT_TEXTS[2][23] == 'J';
    assert PERMANENT_TEXTS[3][7] == 'b' && PERMANENT_TEXTS[4][13] == 'M' && PERMANENT_TEXTS[5][9] == 'f';
    assert PERMANENT_TEXTS[6][14] == 'f';
    c := if k == 0 then 'F' else if k == 1 then 'q' else if k == 2 then 'J' else if k == 3 then 'b'
         else if k == 4 then 'M' else 'f';
  }

  const DETAIL: string := "connection reset"

  /** A problem whose type is not listed and whose status says nothing, with a detail that speaks of a connection. */
  predicate SpeaksOfConnection(e: Error, kind: string, status: nat, number: string, body: string) {
    && e == Error([Problem(status, kind, None)], ProblemText(kind, DETAIL, number, body))
    && LastPart(kind) !in PERMANENT_PROBLEMS && LastPart(kind) !in TRANSIENT_PROBLEMS
    && ClassifyStatus(status, None) == Unknown && AllPlain(e.text)
  }

  /** It fails as unknown, and its recorded text reads as transient. */
  lemma UnknownIsMisread(e: Error, kind: string, status: nat, number: string, body: string)
    requires SpeaksOfConnection(e, kind, status, number, body)
    ensures ClassifyError(e) == Unknown && ClassifyReason(e.text) == Transient(None) && Misread(e)
  {
    assert e.causes[0] == Problem(status, kind, None);
    hide LastPart;
    assert TRANSIENT_TEXTS[5] == DETAIL;
    var rest := " | HTTP " + number + " | " + body;
    assert e.text == kind + ": " + DETAIL + rest;
    assert OccursAt(e.text, DETAIL, |kind| + 2);
    NothingPermanent(e.text);
  }

  const BODY: string := "{\"type\":\"x\",\"detail\":\"" + DETAIL + "\"}"

  /** A problem of type x answered with status 403. */
  const MISREAD: Error := Error([Problem(403, "x", None)], ProblemText("x", DETAIL, "403", BODY))

  lemma PlainJoin(a: string, b: string)
    requires AllPlain(a) && AllPlain(b)
    ensures AllPlain(a + b)
  {
  }

  lemma DetailIsPlain()
    ensures AllPlain(DETAIL)
  {
  }

  lemma MarksArePlain()
    ensures AllPlain(": ") && AllPlain(" | HTTP ") && AllPlain(" | ")
  {
  }

  lemma TextIsPlain(kind: string, detail: string, number: string, body: string)
    requires AllPlain(kind) && AllPlain(detail) && AllPlain(number) && AllPlain(body)
    ensures AllPlain(ProblemText(kind, detail, number, body))
  {
    MarksArePlain();
    hide AllPlain;
    PlainJoin(kind, ": ");
    PlainJoin(kind + ": ", detail);
    PlainJoin(kind + ": " + detail, " | HTTP ");
    PlainJoin(kind + ": " + detail + " | HTTP ", number);
    PlainJoin(kind + ": " + detail + " | HTTP " + number, " | ");
    PlainJoin(kind + ": " + detail + " | HTTP " + number + " | ", body);
  }

  lemma BodyIsPlain()
    ensures AllPlain(BODY)
  {
    var start, end := "{\"type\":\"x\",\"detail\":\"", "\"}";
    assert AllPlain(start) && AllPlain(end);
    DetailIsPlain();
    hide AllPlain;
    PlainJoin(start, DETAIL);
    PlainJoin(start + DETAIL, end);
  }

  lemma ProblemsHaveNames()
    ensures forall p :: p in PERMANENT_PROBLEMS + TRANSIENT_PROBLEMS ==> |p| > 1
  {
    var all := PERMANENT_PROBLEMS + TRANSIENT_PROBLEMS;
    assert |all| == 14;
    assert |all[0]| > 1 && |all[1]| > 1 && |all[2]| > 1 && |all[3]| > 1 && |all[4]| > 1 && |all[5]| > 1 && |all[6]| > 1;
    assert |all[7]| > 1 && |all[8]| > 1 && |all[9]| > 1 && |all[10]| > 1 && |all[11]| > 1 && |all[12]| > 1
           && |all[13]| > 1;
    forall i | 0 <= i < |all| ensures |all[i]| > 1 {
      if i < 7 { assert i == 0 || i == 1 || i == 2 || i == 3 || i == 4 || i == 5 || i == 6; }
    }
  }

  lemma LastPartOfOne(kind: string)
    requires |kind| == 1
    ensures |LastPart(kind)| <= 1
  {
    assert kind[..0] == [] && LastPart([]) == [];
  }

  lemma OneLetterIsUnlisted(kind: string)
    requires |kind| == 1
    ensures LastPart(kind) !in PERMANENT_PROBLEMS && LastPart(kind) !in TRANSIENT_PROBLEMS
  {
    LastPartOfOne(kind);
    ProblemsHaveNames();
    hide LastPart;
    var all := PERMANENT_PROBLEMS + TRANSIENT_PROBLEMS;
    assert LastPart(kind) !in all;
  }

  lemma SuchAProblemExists()
    ensures SpeaksOfConnection(MISREAD, "x", 403, "403", BODY)
  {
    OneLetterIsUnlisted("x");
    assert AllPlain("x") && AllPlain("403");
    DetailIsPlain();
    BodyIsPlain();
    hide AllPlain, ProblemText, LastPart;
    TextIsPlain("x", DETAIL, "403", BODY);
  }
}
