/** The contact-form endpoint of src/app/api/contact/route.ts: rate limiting
    by client address, then an ordered chain of checks on the submitted
    fields, then a silent spam filter, and finally the mail. The mail
    transport is not modelled; whether delivery succeeded is an argument. */
module ContactRoute {
  import opened Wrappers
  import opened JsStrings
  import RateLimit

  const ContactLimit := 5
  const ContactWindowMs := 3600000
  const MinNameLength := 2
  const MaxNameLength := 100
  const MinMessageLength := 10
  const MaxMessageLength := 1000

  const AllFieldsRequired := "All fields are required"
  const InvalidEmail := "Invalid email address"
  const NameLengthMessage := "Name must be 2-100 characters"
  const MessageLengthMessage := "Message must be 10-1000 characters"
  const SentMessage := "Email sent successfully"
  const FailedMessage := "Failed to send email. Please try again later."

  // ---------------------------------------------------------------------
  // Client key

  /** `s.split(',')[0]`: the text before the first comma. */
  function FirstField(s: string): (r: string)
    ensures |r| <= |s| && r == s[..|r|]
    ensures ',' !in r
    ensures |r| < |s| ==> s[|r|] == ','
  {
    if s == [] || s[0] == ',' then [] else [s[0]] + FirstField(s[1..])
  }

  /** The rate-limit key: the first comma-separated entry of the
      `x-forwarded-for` header, or `"unknown"` when the header is missing or
      empty. */
  function ClientKey(forwarded: Option<string>): (key: string)
    ensures !Truthy(forwarded) ==> key == "unknown"
    ensures Truthy(forwarded) ==>
              |key| <= |forwarded.value| && ',' !in key && key == forwarded.value[..|key|] &&
              (|key| < |forwarded.value| ==> forwarded.value[|key|] == ',')
  {
    if Truthy(forwarded) then FirstField(forwarded.value) else "unknown"
  }

  // ---------------------------------------------------------------------
  // sanitizeInput

  /** `s.replace(/[<>]/g, '')`: every `<` and `>` removed, every other
      character kept as often as it occurs. */
  function StripAngles(s: string): (r: string)
    ensures '<' !in r && '>' !in r
    ensures |r| <= |s|
    ensures forall c :: c != '<' && c != '>' ==> multiset(r)[c] == multiset(s)[c]
  {
    if s == [] then []
    else
      assert s == [s[0]] + s[1..];
      (if s[0] == '<' || s[0] == '>' then [] else [s[0]]) + StripAngles(s[1..])
  }

  /** `sanitizeInput`: trim first, then strip angle brackets. */
  function Sanitize(s: string): (r: string)
    ensures '<' !in r && '>' !in r
    ensures |r| <= |s|
  {
    StripAngles(Trim(s))
  }

  /** Because trimming happens before stripping, sanitizing twice can differ
      from sanitizing once: `"< a"` becomes `" a"`, which becomes `"a"`. */
  lemma SanitizeNotIdempotent()
    ensures Sanitize("< a") == " a"
    ensures Sanitize(Sanitize("< a")) == "a"
  {
    assert Sanitize("< a") == " a" by {
      TrimKeeps("< a");
      StripBracketThenSpace();
    }
    assert Sanitize(" a") == "a" by {
      TrimLeadingBlank();
      StripLetter();
    }
  }

  lemma StripBracketThenSpace()
    ensures StripAngles("< a") == " a"
  {
    assert "< a"[1..] == " a";
    StripLetter();
    assert StripAngles(" a") == " " + StripAngles("a") by {
      assert " a"[1..] == "a";
    }
  }

  lemma StripLetter()
    ensures StripAngles("a") == "a"
  {
    assert "a"[1..] == "";
  }

  lemma TrimLeadingBlank()
    ensures Trim(" a") == "a"
  {
    assert SpaceRunFrom(" a", 0) == 1 by {
      assert SpaceRunFrom(" a", 1) == 1;
    }
    assert SpaceRunTo(" a", 1, 2) == 2;
    assert " a"[1..2] == "a";
  }

  // ---------------------------------------------------------------------
  // isValidEmail: /^[^\s@]+@[^\s@]+\.[^\s@]+$/

  /** A character of the class `[^\s@]`. */
  predicate AtomChar(c: char) {
    !IsSpace(c) && c != '@'
  }

  predicate AllAtom(s: string) {
    forall i :: 0 <= i < |s| ==> AtomChar(s[i])
  }

  /** Index of the first `c` in `s`, or `|s|` when there is none. */
  function IndexOf(s: string, c: char): (i: nat)
    ensures i <= |s|
    ensures i < |s| ==> s[i] == c
    ensures forall k :: 0 <= k < i ==> s[k] != c
  {
    if s == [] then 0
    else if s[0] == c then 0
    else 1 + IndexOf(s[1..], c)
  }

  /** A `.` that is neither the first nor the last character. */
  predicate HasInnerDot(d: string) {
    exists j :: 0 < j < |d| - 1 && d[j] == '.'
  }

  /** `isValidEmail`: a non-empty local part before the first `@`, and after
      it a domain part of `[^\s@]` characters with a `.` inside it. */
  predicate IsValidEmail(s: string) {
    var at := IndexOf(s, '@');
    0 < at < |s| && AllAtom(s[..at]) && AllAtom(s[at + 1..]) && HasInnerDot(s[at + 1..])
  }

  /** The regular expression read literally: one or more `[^\s@]`, `@`, one
      or more `[^\s@]`, `.`, one or more `[^\s@]`, and nothing else. */
  ghost predicate EmailShape(s: string) {
    exists at, dot :: ShapeAt(s, at, dot)
  }

  /** `s` matches the expression with its `@` at `at` and the escaped `.`
      at `dot`. */
  predicate ShapeAt(s: string, at: int, dot: int) {
    0 < at && at + 1 < dot && dot + 1 < |s| &&
    s[at] == '@' && s[dot] == '.' &&
    AllAtom(s[..at]) && AllAtom(s[at + 1..dot]) && AllAtom(s[dot + 1..])
  }

  lemma AllAtomJoin(a: string, b: string)
    requires AllAtom(a) && AllAtom(b)
    ensures AllAtom(a + ['.'] + b)
  {
    var ab := a + ['.'] + b;
    forall k | 0 <= k < |ab| ensures AtomChar(ab[k]) {
      if k < |a| { assert ab[k] == a[k]; }
      else if k > |a| { assert ab[k] == b[k - |a| - 1]; }
    }
  }

  lemma ValidEmailHasShape(s: string)
    requires IsValidEmail(s)
    ensures EmailShape(s)
  {
    var at := IndexOf(s, '@');
    var d := s[at + 1..];
    var j :| 0 < j < |d| - 1 && d[j] == '.';
    var dot := at + 1 + j;
    assert s[at + 1..dot] == d[..j];
    assert s[dot + 1..] == d[j + 1..];
    assert AllAtom(d[..j]) && AllAtom(d[j + 1..]);
    assert ShapeAt(s, at, dot);
  }

  /** An `@` preceded only by `[^\s@]` characters is the first `@`. */
  lemma FirstAt(s: string, a: nat)
    requires a < |s| && s[a] == '@' && AllAtom(s[..a])
    ensures IndexOf(s, '@') == a
  {
    forall k | 0 <= k < a ensures s[k] != '@' {
      assert AtomChar(s[..a][k]);
    }
  }

  /** The domain part `[^\s@]+\.[^\s@]+` read literally. */
  lemma DomainHasInnerDot(left: string, right: string)
    requires |left| > 0 && |right| > 0 && AllAtom(left) && AllAtom(right)
    ensures var d := left + ['.'] + right; AllAtom(d) && HasInnerDot(d)
  {
    AllAtomJoin(left, right);
    var d := left + ['.'] + right;
    assert d[|left|] == '.';
  }

  lemma ShapeAtIsValidEmail(s: string, a: int, dot: int)
    requires ShapeAt(s, a, dot)
    ensures IsValidEmail(s)
  {
    FirstAt(s, a);
    var left, right := s[a + 1..dot], s[dot + 1..];
    DomainHasInnerDot(left, right);
    assert s[a + 1..] == left + ['.'] + right;
  }

  lemma ShapeIsValidEmail(s: string)
    requires EmailShape(s)
    ensures IsValidEmail(s)
  {
    var a, dot :| ShapeAt(s, a, dot);
    ShapeAtIsValidEmail(s, a, dot);
  }

  lemma IsValidEmailMatchesPattern(s: string)
    ensures IsValidEmail(s) <==> EmailShape(s)
  {
    if IsValidEmail(s) { ValidEmailHasShape(s); }
    if EmailShape(s) { ShapeIsValidEmail(s); }
  }

  /** A valid address contains no white space and exactly one `@`. */
  lemma ValidEmailHasOneAt(s: string)
    requires IsValidEmail(s)
    ensures NoSpace(s)
    ensures multiset(s)['@'] == 1
  {
    var at := IndexOf(s, '@');
    assert s == s[..at] + [s[at]] + s[at + 1..];
    assert '@' !in s[..at] by {
      forall k | 0 <= k < at ensures s[..at][k] != '@' { assert AtomChar(s[..at][k]); }
    }
    var d := s[at + 1..];
    assert '@' !in d by {
      forall k | 0 <= k < |d| ensures d[k] != '@' { assert AtomChar(d[k]); }
    }
    forall k | 0 <= k < |s| ensures !IsSpace(s[k]) {
      if k < at { assert s[k] == s[..at][k]; }
      else if k > at { assert s[k] == d[k - at - 1]; }
    }
  }

  // ---------------------------------------------------------------------
  // Spam filter

  /** One of the spam expressions: a literal, matched either ignoring ASCII
      case (the `i` flag) or exactly. */
  datatype SpamPattern = SpamPattern(literal: string, ignoreCase: bool)

  const SpamPatterns: seq<SpamPattern> := [
    SpamPattern("viagra", true),
    SpamPattern("cialis", true),
    SpamPattern("lottery", true),
    SpamPattern("winner", true),
    SpamPattern("$$$", false),
    SpamPattern("click here", true)
  ]

  predicate SameChar(a: char, b: char, ignoreCase: bool) {
    if ignoreCase then FoldCase(a) == FoldCase(b) else a == b
  }

  /** The literal of `p` occurs in `text` starting at index `i`. */
  predicate OccursAt(p: SpamPattern, text: string, i: int) {
    0 <= i <= |text| - |p.literal| &&
    forall k :: 0 <= k < |p.literal| ==> SameChar(text[i + k], p.literal[k], p.ignoreCase)
  }

  /** `pattern.test(text)`: the literal occurs somewhere in `text`. */
  predicate Matches(p: SpamPattern, text: string) {
    exists i | 0 <= i <= |text| - |p.literal| :: OccursAt(p, text, i)
  }

  /** Some spam expression matches the message or the name. */
  predicate HasSpam(name: string, message: string) {
    exists p :: p in SpamPatterns && (Matches(p, message) || Matches(p, name))
  }

  /** The text with every ASCII capital folded to its small letter. */
  function Lower(s: string): (r: string)
    ensures |r| == |s|
    ensures forall i :: 0 <= i < |s| ==> r[i] == FoldCase(s[i])
  {
    if s == [] then [] else [FoldCase(s[0])] + Lower(s[1..])
  }

  predicate IsAsciiLetter(c: char) {
    'A' <= c <= 'Z' || 'a' <= c <= 'z'
  }

  /** A pattern that ignores case, or whose literal has no letter, matches
      at `i` in a text exactly when it matches there in the folded text. */
  lemma OccursAtIgnoresCase(p: SpamPattern, t: string, i: int)
    requires p.ignoreCase || forall k :: 0 <= k < |p.literal| ==> !IsAsciiLetter(p.literal[k])
    ensures OccursAt(p, t, i) <==> OccursAt(p, Lower(t), i)
  {
    var u := Lower(t);
    if 0 <= i <= |t| - |p.literal| {
      forall k | 0 <= k < |p.literal|
        ensures SameChar(t[i + k], p.literal[k], p.ignoreCase) == SameChar(u[i + k], p.literal[k], p.ignoreCase)
      {
        assert u[i + k] == FoldCase(t[i + k]);
        if !p.ignoreCase {
          assert !IsAsciiLetter(p.literal[k]);
        }
      }
    }
  }

  lemma MatchesIgnoresCase(p: SpamPattern, t: string)
    requires p.ignoreCase || forall k :: 0 <= k < |p.literal| ==> !IsAsciiLetter(p.literal[k])
    ensures Matches(p, t) <==> Matches(p, Lower(t))
  {
    forall i | 0 <= i <= |t| - |p.literal| ensures OccursAt(p, t, i) <==> OccursAt(p, Lower(t), i) {
      OccursAtIgnoresCase(p, t, i);
    }
  }

  /** The five words are matched in any case and `$$$` has no letter, so
      the filter gives the same verdict on the texts with their capitals
      folded. */
  lemma SpamIgnoresCase(name: string, message: string)
    ensures HasSpam(name, message) <==> HasSpam(Lower(name), Lower(message))
  {
    forall p | p in SpamPatterns
      ensures Matches(p, message) <==> Matches(p, Lower(message))
      ensures Matches(p, name) <==> Matches(p, Lower(name))
    {
      assert p.ignoreCase || forall k :: 0 <= k < |p.literal| ==> !IsAsciiLetter(p.literal[k]);
      MatchesIgnoresCase(p, message);
      MatchesIgnoresCase(p, name);
    }
  }

  /** The ignore-case flag makes a capitalised spam word count. */
  lemma CapitalisedWordIsSpam()
    ensures HasSpam("Ann", "You are a WINNER!")
  {
    var p := SpamPattern("winner", true);
    assert p == SpamPatterns[3];
    var text := "You are a WINNER!";
    assert forall k :: 0 <= k < 6 ==> SameChar(text[10 + k], p.literal[k], true);
    assert OccursAt(p, text, 10);
    assert Matches(p, text);
  }

  // ---------------------------------------------------------------------
  // The request

  /** A field of the JSON body: missing (or `undefined`), a string, or some
      other JSON value, recorded only by its truthiness. */
  datatype JsonField = Absent | Text(s: string) | NonText(truthy: bool)

  predicate FieldTruthy(f: JsonField) {
    match f
    case Absent => false
    case Text(s) => s != ""
    case NonText(t) => t
  }

  /** The parsed body `{ name, email, message }`. */
  datatype ContactBody = ContactBody(name: JsonField, email: JsonField, message: JsonField)

  predicate AllFilled(b: ContactBody) {
    FieldTruthy(b.name) && FieldTruthy(b.email) && FieldTruthy(b.message)
  }

  predicate AllText(b: ContactBody) {
    b.name.Text? && b.email.Text? && b.message.Text?
  }

  /** The JSON body of a response. */
  datatype Body = Verdict(success: bool, message: string) | ErrorBody(error: string)

  datatype Response = Response(status: int, body: Body)

  /** The mail that would be sent, built from the sanitized fields. */
  datatype Mail = Mail(name: string, email: string, message: string)

  /** What the checks decide: the response to give, and the mail to send
      first, if any. */
  datatype Screening = Screening(response: Response, mail: Option<Mail>)

  const ServerError := Response(500, Verdict(false, FailedMessage))
  const Sent := Response(200, Verdict(true, SentMessage))

  function BadRequest(message: string): Response {
    Response(400, Verdict(false, message))
  }

  predicate NameLengthOk(name: string) {
    MinNameLength <= Utf16Length(name) <= MaxNameLength
  }

  predicate MessageLengthOk(message: string) {
    MinMessageLength <= Utf16Length(message) <= MaxMessageLength
  }

  /** The checks after the rate limit, in the order the endpoint runs them.
      `None` is a body that is not JSON or is `null`, for which reading the
      fields throws. A truthy field that is not a string makes `trim` throw.
      Both end in the catch-all 500 response. */
  function Screen(body: Option<ContactBody>): (d: Screening)
    ensures body.None? ==> d == Screening(ServerError, None)
    ensures body.Some? && !AllFilled(body.value) ==> d == Screening(BadRequest(AllFieldsRequired), None)
    ensures body.Some? && AllFilled(body.value) && !AllText(body.value) ==> d == Screening(ServerError, None)
    ensures body.Some? && AllFilled(body.value) && AllText(body.value) ==>
              var name := Sanitize(body.value.name.s);
              var email := Sanitize(body.value.email.s);
              var message := Sanitize(body.value.message.s);
              && (!IsValidEmail(email) ==> d == Screening(BadRequest(InvalidEmail), None))
              && (IsValidEmail(email) && !NameLengthOk(name) ==>
                    d == Screening(BadRequest(NameLengthMessage), None))
              && (IsValidEmail(email) && NameLengthOk(name) && !MessageLengthOk(message) ==>
                    d == Screening(BadRequest(MessageLengthMessage), None))
              && (IsValidEmail(email) && NameLengthOk(name) && MessageLengthOk(message) ==>
                    d.response == Sent &&
                    d.mail == (if HasSpam(name, message) then None else Some(Mail(name, email, message))))
    ensures d.mail.Some? ==>
              var m := d.mail.value;
              && d.response == Sent
              && '<' !in m.name && '>' !in m.name && '<' !in m.message && '>' !in m.message
              && IsValidEmail(m.email) && NameLengthOk(m.name) && MessageLengthOk(m.message)
              && !HasSpam(m.name, m.message)
  {
    if body.None? then Screening(ServerError, None)
    else
      var b := body.value;
      if !AllFilled(b) then Screening(BadRequest(AllFieldsRequired), None)
      else if !AllText(b) then Screening(ServerError, None)
      else
        var name := Sanitize(b.name.s);
        var email := Sanitize(b.email.s);
        var message := Sanitize(b.message.s);
        if !IsValidEmail(email) then Screening(BadRequest(InvalidEmail), None)
        else if !NameLengthOk(name) then Screening(BadRequest(NameLengthMessage), None)
        else if !MessageLengthOk(message) then Screening(BadRequest(MessageLengthMessage), None)
        else if HasSpam(name, message) then Screening(Sent, None)
        else Screening(Sent, Some(Mail(name, email, message)))
  }

  /** The response once the mail, if any, has been handed to the transport:
      a failed delivery ends in the catch-all 500 response. */
  function Finish(d: Screening, delivered: bool): (r: Response)
    ensures d.mail.None? ==> r == d.response
    ensures d.mail.Some? ==> r == (if delivered then d.response else ServerError)
  {
    if d.mail.Some? && !delivered then ServerError else d.response
  }

  function TooManyRequests(): (r: Response)
    ensures r.status == 429
  {
    var limited := RateLimit.RateLimitResponse();
    Response(limited.status, ErrorBody(limited.error))
  }

  /** A client that sends `x-forwarded-for: constructor` is keyed under an
      inherited name, so it is never rate limited. */
  lemma ConstructorKeyIsInherited(times: seq<int>)
    ensures ClientKey(Some("constructor")) == "constructor"
    ensures forall i :: 0 <= i < |times| ==>
              RateLimit.CallVerdicts(map[], ClientKey(Some("constructor")), ContactLimit, ContactWindowMs, times)[i]
  {
    assert ',' !in "constructor";
    RateLimit.InheritedKeyNeverLimited(map[], "constructor", ContactLimit, ContactWindowMs, times);
  }

  /** `POST /api/contact`. The rate limit is charged first, at 5 requests
      per hour for the client key, before the body is looked at. */
  method Post(limiter: RateLimit.RateLimiter, forwarded: Option<string>, body: Option<ContactBody>,
              delivered: bool, now: int)
    returns (resp: Response)
    requires limiter.Valid()
    modifies limiter
    ensures limiter.Valid()
    ensures var o := RateLimit.Call(old(limiter.store), ClientKey(forwarded), ContactLimit, ContactWindowMs, now);
            && limiter.store == o.store
            && resp == (if o.allowed then Finish(Screen(body), delivered) else TooManyRequests())
  {
    var ip := ClientKey(forwarded);
    var allowed := limiter.RateLimit(ip, now, ContactLimit, ContactWindowMs);
    if !allowed {
      return TooManyRequests();
    }
    var d := Screen(body);
    resp := Finish(d, delivered);
  }
}
