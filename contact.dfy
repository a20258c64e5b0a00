/**
  The contact-form endpoint (`POST /api/contact`): validation of the submitted fields
  followed by delivery through the first notification provider that accepts the message.

  Each provider's HTTP exchange is abstracted to its outcome (`Outcome`), and the
  environment to the variables that decide which providers are configured.
*/
module Contact {
  import opened Wrappers
  import opened Text

  // ---------------------------------------------------------------------------
  // Request, environment and response
  // ---------------------------------------------------------------------------

  /** The form fields as `formData.get` returns them (`None` for a missing field),
      or a body that could not be read, with the message of the error if it was an `Error`. */
  datatype Request =
    | Form(name: Option<string>, email: Option<string>, message: Option<string>)
    | Unreadable(error: Option<string>)

  /** The environment variables the handler reads. */
  datatype Env = Env(
    toEmail: Option<string>,
    resendApiKey: Option<string>,
    discordWebhookUrl: Option<string>,
    slackWebhookUrl: Option<string>,
    smtpHost: Option<string>,
    smtpUser: Option<string>,
    smtpPass: Option<string>)

  /** What one provider's send resolves to: `true`, `false`, or a thrown error. */
  datatype Outcome = Ok | NotOk | Throws

  /** The outcomes the network would give to the three providers that make a request. */
  datatype Network = Network(resend: Outcome, discord: Outcome, slack: Outcome)

  datatype Provider = Resend | Discord | Slack | Smtp

  /** The `method` name reported for a provider. */
  function Name(p: Provider): string {
    match p
    case Resend => "resend"
    case Discord => "discord"
    case Slack => "slack"
    case Smtp => "smtp"
  }

  /** The `error` texts of the handler's answers. */
  datatype ErrorMessage =
    | MissingFields | MessageTooLong | InvalidEmail | MissingToEmail | NoServiceConfigured | UnexpectedError

  function ErrorText(e: ErrorMessage): string {
    match e
    case MissingFields => "Missing required fields"
    case MessageTooLong => "Message too long (max 5000 characters)"
    case InvalidEmail => "Invalid email format"
    case MissingToEmail => "Server not configured - missing TO_EMAIL"
    case NoServiceConfigured =>
      "No email service configured. Please set up RESEND_API_KEY, DISCORD_WEBHOOK_URL, or SLACK_WEBHOOK_URL in environment variables."
    case UnexpectedError => "Unexpected server error"
  }

  /** The setup hint listed for each provider under `availableMethods`. */
  function SetupHint(p: Provider): string {
    match p
    case Resend => "Set RESEND_API_KEY (3,000 free emails/month)"
    case Discord => "Set DISCORD_WEBHOOK_URL (completely free)"
    case Slack => "Set SLACK_WEBHOOK_URL (free)"
    case Smtp => "Set SMTP_HOST, SMTP_USER, SMTP_PASS (use Gmail app password)"
  }

  /** The JSON bodies the handler answers with. */
  datatype Response =
    | Sent(message: string, via: string)  // { success: true, message, method: via }
    | BadRequest(error: ErrorMessage)
    | ServerError(error: ErrorMessage)
      // { error, availableMethods }, one `Name(p): SetupHint(p)` entry per listed provider
    | NoService(error: ErrorMessage, availableMethods: seq<Provider>)
    | Unexpected(error: ErrorMessage, details: string)

  function Status(r: Response): int {
    match r
    case Sent(_, _) => 200
    case BadRequest(_) => 400
    case _ => 500
  }

  const MaxMessageLength := 5000
  const SentMessage := "Message sent successfully"
  const UnknownError := "Unknown error"

  // ---------------------------------------------------------------------------
  // Validation
  // ---------------------------------------------------------------------------

  /** `String(formData.get(f) || '').trim()`. */
  function FieldValue(v: Option<string>): string {
    Trim(v.GetOr(""))
  }

  /** Neither white space nor `@`: the class `[^\s@]`. */
  predicate PlainChar(c: char) {
    !IsSpace(c) && c != '@'
  }

  predicate AllPlain(s: string) {
    forall k :: 0 <= k < |s| ==> PlainChar(s[k])
  }

  /** The language of the pattern `^[^\s@]+@[^\s@]+\.[^\s@]+$`: a split of `s` into
      local part, `@`, domain name, `.`, top-level part, each part non-empty and plain. */
  ghost predicate MatchesEmailPattern(s: string) {
    exists i, j :: 0 < i && i + 1 < j && j + 1 < |s| && s[i] == '@' && s[j] == '.'
      && AllPlain(s[..i]) && AllPlain(s[i + 1..j]) && AllPlain(s[j + 1..])
  }

  /** The position of the first `c` in `s`, if any. */
  function IndexOf(s: string, c: char): (r: Option<nat>)
    ensures r.Some? ==> r.value < |s| && s[r.value] == c && c !in s[..r.value]
    ensures r.None? ==> c !in s
  {
    if s == [] then None
    else if s[0] == c then Some(0)
    else match IndexOf(s[1..], c)
      case None => None
      case Some(k) => Some(k + 1)
  }

  /** The characters of `d` other than its first and its last. */
  function Interior(d: string): string {
    if |d| < 2 then [] else d[1..|d| - 1]
  }

  /** The e-mail check: no white space, exactly one `@`, something before it, and a
      `.` after it that is neither the first nor the last character of the domain. */
  predicate ValidEmail(s: string) {
    (forall k :: 0 <= k < |s| ==> !IsSpace(s[k]))
    && match IndexOf(s, '@')
       case None => false
       case Some(at) => 0 < at && '@' !in s[at + 1..] && '.' in Interior(s[at + 1..])
  }

  /** `s[lo..hi]` is plain when every character in that range is. */
  lemma AllPlainSlice(s: string, lo: nat, hi: nat)
    requires lo <= hi <= |s|
    requires forall k :: lo <= k < hi ==> PlainChar(s[k])
    ensures AllPlain(s[lo..hi])
  {
    assert forall k :: 0 <= k < hi - lo ==> s[lo..hi][k] == s[lo + k];
  }

  /** What the e-mail check says about the first `@` and about white space. */
  lemma ValidEmailAt(s: string)
    requires ValidEmail(s)
    ensures IndexOf(s, '@').Some?
    ensures var at := IndexOf(s, '@').value;
      at < |s| && s[at] == '@' && '@' !in s[..at] && '@' !in s[at + 1..]
    ensures forall k :: 0 <= k < |s| ==> !IsSpace(s[k])
  {
  }

  /** In an accepted address every character but the first `@` is plain. */
  lemma ValidEmailPlainOutsideAt(s: string)
    requires ValidEmail(s)
    ensures var at := IndexOf(s, '@').value;
      forall k :: 0 <= k < |s| && k != at ==> PlainChar(s[k])
  {
    ValidEmailAt(s);
    var at := IndexOf(s, '@').value;
    var pre, d := s[..at], s[at + 1..];
    forall k | 0 <= k < at ensures s[k] != '@' {
      assert pre[k] == s[k];
    }
    forall k | at < k < |s| ensures s[k] != '@' {
      assert d[k - at - 1] == s[k];
    }
  }

  /** A `.` inside the domain after position `at` sits strictly between `at + 1` and the end. */
  lemma DotInDomain(s: string, at: nat)
    requires at < |s| && '.' in Interior(s[at + 1..])
    ensures exists j :: at + 1 < j && j + 1 < |s| && s[j] == '.'
  {
    var d := s[at + 1..];
    var m :| 0 <= m < |Interior(d)| && Interior(d)[m] == '.';
    assert s[at + 2 + m] == d[m + 1];
  }

  /** When only the character at `i` is not plain, the three parts around `i` and `j` are. */
  lemma PlainSplit(s: string, i: nat, j: nat)
    requires i < j < |s|
    requires forall k :: 0 <= k < |s| && k != i ==> PlainChar(s[k])
    ensures AllPlain(s[..i]) && AllPlain(s[i + 1..j]) && AllPlain(s[j + 1..])
  {
    AllPlainSlice(s, 0, i);
    AllPlainSlice(s, i + 1, j);
    AllPlainSlice(s, j + 1, |s|);
    assert s[j + 1..] == s[j + 1..|s|];
    assert s[..i] == s[0..i];
  }

  /** Every address the e-mail check accepts matches the pattern. */
  lemma ValidEmailMatchesPattern(s: string)
    requires ValidEmail(s)
    ensures MatchesEmailPattern(s)
  {
    var at := IndexOf(s, '@').value;
    ValidEmailPlainOutsideAt(s);
    DotInDomain(s, at);
    var j :| at + 1 < j && j + 1 < |s| && s[j] == '.';
    PlainSplit(s, at, j);
  }

  /** `IndexOf` finds the first occurrence. */
  lemma {:induction false} IndexOfFirst(s: string, c: char, i: nat)
    requires i < |s| && s[i] == c && c !in s[..i]
    ensures IndexOf(s, c) == Some(i)
  {
    if i > 0 {
      assert s[1..][..i - 1] == s[..i][1..];
      IndexOfFirst(s[1..], c, i - 1);
    }
  }

  /** In a split of `s` as the pattern describes, only the `@` at `i` is not plain. */
  lemma PatternPartsPlain(s: string, i: nat, j: nat)
    requires 0 < i && i + 1 < j && j + 1 < |s| && s[j] == '.'
    requires AllPlain(s[..i]) && AllPlain(s[i + 1..j]) && AllPlain(s[j + 1..])
    ensures forall k :: 0 <= k < |s| && k != i ==> PlainChar(s[k])
  {
    forall k | 0 <= k < |s| && k != i ensures PlainChar(s[k]) {
      if k < i { assert s[k] == s[..i][k]; }
      else if k < j { assert s[k] == s[i + 1..j][k - i - 1]; }
      else if j < k { assert s[k] == s[j + 1..][k - j - 1]; }
    }
  }

  /** When only the character at `i` is not plain, there is no `@` before or after it. */
  lemma NoOtherAt(s: string, i: nat)
    requires i < |s|
    requires forall k :: 0 <= k < |s| && k != i ==> PlainChar(s[k])
    ensures '@' !in s[..i] && '@' !in s[i + 1..]
  {
    forall k | 0 <= k < i ensures s[..i][k] != '@' {
      assert s[..i][k] == s[k];
    }
    var d := s[i + 1..];
    forall k | 0 <= k < |d| ensures d[k] != '@' {
      assert d[k] == s[i + 1 + k];
    }
  }

  /** When only the `@` at `i` is not plain, `s` has no white space. */
  lemma NoSpaceAround(s: string, i: nat)
    requires i < |s| && s[i] == '@'
    requires forall k :: 0 <= k < |s| && k != i ==> PlainChar(s[k])
    ensures forall k :: 0 <= k < |s| ==> !IsSpace(s[k])
  {
    forall k | 0 <= k < |s| ensures !IsSpace(s[k]) {
      if k != i {
        assert PlainChar(s[k]);
      }
    }
  }

  /** Every string the pattern matches passes the e-mail check. */
  lemma PatternMatchIsValidEmail(s: string)
    requires MatchesEmailPattern(s)
    ensures ValidEmail(s)
  {
    var i, j :| 0 < i && i + 1 < j && j + 1 < |s| && s[i] == '@' && s[j] == '.'
      && AllPlain(s[..i]) && AllPlain(s[i + 1..j]) && AllPlain(s[j + 1..]);
    PatternPartsPlain(s, i, j);
    NoOtherAt(s, i);
    NoSpaceAround(s, i);
    IndexOfFirst(s, '@', i);
    var d := s[i + 1..];
    assert Interior(d)[j - i - 2] == '.';
  }

  /** The e-mail check accepts exactly the strings the regular expression matches. */
  lemma EmailPatternCorrect(s: string)
    ensures ValidEmail(s) <==> MatchesEmailPattern(s)
  {
    if ValidEmail(s) { ValidEmailMatchesPattern(s); }
    if MatchesEmailPattern(s) { PatternMatchIsValidEmail(s); }
  }

  /** An accepted address has exactly one `@`, with a non-empty local part before it. */
  lemma ValidEmailHasOneAt(s: string)
    requires ValidEmail(s)
    ensures exists at :: 0 < at < |s| && s[at] == '@' && forall k :: 0 <= k < |s| && s[k] == '@' ==> k == at
  {
    var at := IndexOf(s, '@').value;
    var d := s[at + 1..];
    assert forall k :: at < k < |s| ==> s[k] == d[k - at - 1];
    assert forall k :: 0 <= k < at ==> s[k] == s[..at][k];
  }

  /** The checks before dispatch, in the order the handler makes them, on trimmed fields. */
  function ValidationError(name: string, email: string, message: string, env: Env): Option<Response> {
    if name == [] || email == [] || message == [] then Some(BadRequest(MissingFields))
    else if |message| > MaxMessageLength then Some(BadRequest(MessageTooLong))
    else if !ValidEmail(email) then Some(BadRequest(InvalidEmail))
    else if !Truthy(env.toEmail) then Some(ServerError(MissingToEmail))
    else None
  }

  // ---------------------------------------------------------------------------
  // The provider chain
  // ---------------------------------------------------------------------------

  /** The order in which providers are tried. */
  const Priority := [Resend, Discord, Slack, Smtp]

  function Rank(p: Provider): nat {
    match p
    case Resend => 0
    case Discord => 1
    case Slack => 2
    case Smtp => 3
  }

  /** The environment variables that must all be set for a provider to be tried. */
  predicate Configured(env: Env, p: Provider) {
    match p
    case Resend => Truthy(env.resendApiKey)
    case Discord => Truthy(env.discordWebhookUrl)
    case Slack => Truthy(env.slackWebhookUrl)
    case Smtp => Truthy(env.smtpHost) && Truthy(env.smtpUser) && Truthy(env.smtpPass)
  }

  /** The SMTP path is a placeholder whose send always resolves to `false`. */
  function SendWithSmtp(): Outcome {
    NotOk
  }

  function OutcomeOf(net: Network, p: Provider): Outcome {
    match p
    case Resend => net.resend
    case Discord => net.discord
    case Slack => net.slack
    case Smtp => SendWithSmtp()
  }

  /** Each provider ranks below every later one. */
  predicate Increasing(ps: seq<Provider>) {
    forall i, j :: 0 <= i < j < |ps| ==> Rank(ps[i]) < Rank(ps[j])
  }

  /** The providers tried, in order: the configured ones of `ps`, up to and including
      the first whose send resolves to `true`. */
  function Attempts(env: Env, net: Network, ps: seq<Provider>): seq<Provider> {
    if ps == [] then []
    else if !Configured(env, ps[0]) then Attempts(env, net, ps[1..])
    else if OutcomeOf(net, ps[0]) == Ok then [ps[0]]
    else [ps[0]] + Attempts(env, net, ps[1..])
  }

  /** The provider that delivered the message, if any: the last one tried, when it succeeded. */
  function Delivered(env: Env, net: Network): Option<Provider> {
    var a := Attempts(env, net, Priority);
    if a != [] && OutcomeOf(net, a[|a| - 1]) == Ok then Some(a[|a| - 1]) else None
  }

  /** Only configured providers of `ps` are tried. */
  lemma {:induction false} AttemptsConfigured(env: Env, net: Network, ps: seq<Provider>)
    ensures forall p :: p in Attempts(env, net, ps) ==> p in ps && Configured(env, p)
  {
    if ps != [] {
      AttemptsConfigured(env, net, ps[1..]);
    }
  }

  /** Providers are tried in priority order, each at most once. */
  lemma {:induction false} AttemptsIncreasing(env: Env, net: Network, ps: seq<Provider>)
    requires Increasing(ps)
    ensures Increasing(Attempts(env, net, ps))
  {
    if ps != [] {
      var rest := ps[1..];
      AttemptsIncreasing(env, net, rest);
      AttemptsConfigured(env, net, rest);
      if Configured(env, ps[0]) && OutcomeOf(net, ps[0]) != Ok {
        var b := Attempts(env, net, rest);
        forall p | p in b ensures Rank(ps[0]) < Rank(p) {
          var k :| 0 <= k < |rest| && rest[k] == p;
          assert ps[k + 1] == p;
        }
        assert forall k :: 0 < k < |b| + 1 ==> ([ps[0]] + b)[k] == b[k - 1];
      }
    }
  }

  /** Every provider tried before the last one failed. */
  lemma {:induction false} AttemptsFailBeforeLast(env: Env, net: Network, ps: seq<Provider>, k: nat)
    requires k + 1 < |Attempts(env, net, ps)|
    ensures OutcomeOf(net, Attempts(env, net, ps)[k]) != Ok
  {
    var b := Attempts(env, net, ps[1..]);
    if Configured(env, ps[0]) && k > 0 {
      assert Attempts(env, net, ps)[k] == b[k - 1];
      AttemptsFailBeforeLast(env, net, ps[1..], k - 1);
    } else if !Configured(env, ps[0]) {
      AttemptsFailBeforeLast(env, net, ps[1..], k);
    }
  }

  /** A configured provider of `ps` goes untried only when an earlier one succeeded. */
  lemma {:induction false} AttemptsSkipOnlyAfterSuccess(env: Env, net: Network, ps: seq<Provider>, p: Provider)
    requires Increasing(ps)
    requires p in ps && Configured(env, p) && p !in Attempts(env, net, ps)
    ensures var a := Attempts(env, net, ps);
      a != [] && Configured(env, a[|a| - 1]) && OutcomeOf(net, a[|a| - 1]) == Ok && Rank(a[|a| - 1]) < Rank(p)
  {
    var rest := ps[1..];
    if p == ps[0] {
    } else {
      assert p in rest;
      if !(Configured(env, ps[0]) && OutcomeOf(net, ps[0]) == Ok) {
        AttemptsSkipOnlyAfterSuccess(env, net, rest, p);
      } else {
        var k :| 0 <= k < |ps| && ps[k] == p;
        assert k != 0;
      }
    }
  }

  lemma PriorityFacts()
    ensures Increasing(Priority)
    ensures forall q :: q in Priority
  {
    forall q ensures q in Priority {
      assert Priority[Rank(q)] == q;
    }
  }

  /** The chain delivers through `p` exactly when `p` is configured, its send resolves to
      `true`, and no configured provider of higher priority succeeds. */
  lemma DeliveredIsFirstSuccess(env: Env, net: Network, p: Provider)
    ensures Delivered(env, net) == Some(p) <==>
      (Configured(env, p) && OutcomeOf(net, p) == Ok
       && forall q :: Rank(q) < Rank(p) && Configured(env, q) ==> OutcomeOf(net, q) != Ok)
  {
    PriorityFacts();
    var a := Attempts(env, net, Priority);
    AttemptsConfigured(env, net, Priority);
    AttemptsIncreasing(env, net, Priority);
    if Delivered(env, net) == Some(p) {
      forall q | Rank(q) < Rank(p) && Configured(env, q) ensures OutcomeOf(net, q) != Ok {
        if q in a {
          var k :| 0 <= k < |a| && a[k] == q;
          if k < |a| - 1 { AttemptsFailBeforeLast(env, net, Priority, k); }
        } else {
          AttemptsSkipOnlyAfterSuccess(env, net, Priority, q);
        }
      }
    }
    if Configured(env, p) && OutcomeOf(net, p) == Ok
       && forall q :: Rank(q) < Rank(p) && Configured(env, q) ==> OutcomeOf(net, q) != Ok
    {
      if p !in a {
        AttemptsSkipOnlyAfterSuccess(env, net, Priority, p);
        assert false;
      } else {
        var k :| 0 <= k < |a| && a[k] == p;
        if k < |a| - 1 { AttemptsFailBeforeLast(env, net, Priority, k); }
      }
    }
  }

  /** Nothing is delivered exactly when no configured provider's send resolves to `true`. */
  lemma NothingDeliveredIffAllFail(env: Env, net: Network)
    ensures Delivered(env, net).None? <==> forall q :: Configured(env, q) ==> OutcomeOf(net, q) != Ok
  {
    PriorityFacts();
    var a := Attempts(env, net, Priority);
    AttemptsConfigured(env, net, Priority);
    if Delivered(env, net).None? {
      forall q | Configured(env, q) ensures OutcomeOf(net, q) != Ok {
        if q in a {
          var k :| 0 <= k < |a| && a[k] == q;
          if k < |a| - 1 { AttemptsFailBeforeLast(env, net, Priority, k); }
        } else {
          AttemptsSkipOnlyAfterSuccess(env, net, Priority, q);
        }
      }
    } else {
      assert a[|a| - 1] in a;
    }
  }

  // ---------------------------------------------------------------------------
  // The handler
  // ---------------------------------------------------------------------------

  /** One step of the chain unfolded. */
  lemma AttemptsUnfold(env: Env, net: Network, ps: seq<Provider>)
    requires ps != []
    ensures !Configured(env, ps[0]) ==> Attempts(env, net, ps) == Attempts(env, net, ps[1..])
    ensures Configured(env, ps[0]) && OutcomeOf(net, ps[0]) == Ok ==> Attempts(env, net, ps) == [ps[0]]
    ensures Configured(env, ps[0]) && OutcomeOf(net, ps[0]) != Ok ==>
      Attempts(env, net, ps) == [ps[0]] + Attempts(env, net, ps[1..])
  {
  }

  /** The handler's progress through the chain once the providers before `rest` are done:
      after a success, everything has been tried and `via` names the provider that succeeded;
      otherwise what remains to be tried is the chain on `rest`. */
  ghost predicate Chain(env: Env, net: Network, all: seq<Provider>, rest: seq<Provider>,
                        contacted: seq<Provider>, success: bool, via: string)
  {
    if success then
      contacted == all && all != [] && OutcomeOf(net, all[|all| - 1]) == Ok && via == Name(all[|all| - 1])
    else
      && contacted + Attempts(env, net, rest) == all
      && (contacted == [] || OutcomeOf(net, contacted[|contacted| - 1]) != Ok)
  }

  /** Once every provider has had its turn, the chain's result is what `Delivered` says. */
  lemma ChainDone(env: Env, net: Network, contacted: seq<Provider>, success: bool, via: string)
    requires Chain(env, net, Attempts(env, net, Priority), [], contacted, success, via)
    ensures contacted == Attempts(env, net, Priority)
    ensures success <==> Delivered(env, net).Some?
    ensures success ==> via == Name(Delivered(env, net).value)
  {
    if !success {
      assert contacted + [] == contacted;
    }
  }

  /** The response to the trimmed fields `name`, `email` and `message`. */
  function Answer(name: string, email: string, message: string, env: Env, net: Network): Response {
    match ValidationError(name, email, message, env)
    case Some(err) => err
    case None =>
      match Delivered(env, net)
      case Some(p) => Sent(SentMessage, Name(p))
      case None => NoService(NoServiceConfigured, Priority)
  }

  /** The response the handler gives. */
  function Respond(req: Request, env: Env, net: Network): Response {
    match req
    case Unreadable(e) => Unexpected(UnexpectedError, e.GetOr(UnknownError))
    case Form(n, e, m) => Answer(FieldValue(n), FieldValue(e), FieldValue(m), env, net)
  }

  /** The providers contacted for the trimmed fields, in order: none when a check fails. */
  function Sends(name: string, email: string, message: string, env: Env, net: Network): seq<Provider> {
    if ValidationError(name, email, message, env).Some? then [] else Attempts(env, net, Priority)
  }

  /** The providers the handler contacts, in order. */
  function Contacted(req: Request, env: Env, net: Network): seq<Provider> {
    match req
    case Unreadable(_) => []
    case Form(n, e, m) => Sends(FieldValue(n), FieldValue(e), FieldValue(m), env, net)
  }

  /** The effect of one guarded attempt on `p`: skipped after a success or when `p` is not
      configured; otherwise one send, after which `success` and `via` take its result, unless
      it threw, which leaves them as they were. */
  ghost predicate Step(env: Env, net: Network, p: Provider,
                       success: bool, via: string, contacted: seq<Provider>,
                       success': bool, via': string, contacted': seq<Provider>)
  {
    if !success && Configured(env, p) then
      contacted' == contacted + [p]
      && (if OutcomeOf(net, p) == Throws then success' == success && via' == via
          else success' == (OutcomeOf(net, p) == Ok) && via' == Name(p))
    else success' == success && via' == via && contacted' == contacted
  }

  /** One attempt keeps the handler's progress through the chain. */
  lemma ChainStep(env: Env, net: Network, all: seq<Provider>, rest: seq<Provider>,
                  success: bool, via: string, contacted: seq<Provider>,
                  success': bool, via': string, contacted': seq<Provider>)
    requires rest != []
    requires Chain(env, net, all, rest, contacted, success, via)
    requires Step(env, net, rest[0], success, via, contacted, success', via', contacted')
    ensures Chain(env, net, all, rest[1..], contacted', success', via')
  {
    AttemptsUnfold(env, net, rest);
    if !success && Configured(env, rest[0]) && OutcomeOf(net, rest[0]) != Ok {
      assert contacted' + Attempts(env, net, rest[1..]) == contacted + Attempts(env, net, rest);
    }
  }

  /** One guarded attempt on `p`, as each of the four blocks of the chain makes it: when no
      earlier attempt succeeded and `p` is configured, send once; a send that resolves sets
      `success` to its result and `method` (here `via`) to the provider's name, a thrown
      error is caught and leaves both as they were. */
  method Attempt(env: Env, net: Network, p: Provider, success: bool, via: string, contacted: seq<Provider>)
    returns (success': bool, via': string, contacted': seq<Provider>)
    ensures Step(env, net, p, success, via, contacted, success', via', contacted')
  {
    success', via', contacted' := success, via, contacted;
    if !success && Configured(env, p) {
      contacted' := contacted + [p];
      var outcome := OutcomeOf(net, p);
      if outcome != Throws {
        success' := outcome == Ok;
        via' := Name(p);
      }
    }
  }

  /** The provider chain: one guarded attempt per provider in priority order, starting from
      `success = false` and `method = 'none'`. `contacted` records each outbound send in the
      order it is made. */
  method TryProviders(env: Env, net: Network) returns (success: bool, via: string, contacted: seq<Provider>)
    ensures contacted == Attempts(env, net, Priority)
    ensures success <==> Delivered(env, net).Some?
    ensures success ==> via == Name(Delivered(env, net).value)
  {
    ghost var all := Attempts(env, net, Priority);
    ghost var rest := Priority;
    contacted := [];
    success := false;
    via := "none";
    var s, v, c;

    assert rest[0] == Resend;
    s, v, c := Attempt(env, net, Resend, success, via, contacted);
    ChainStep(env, net, all, rest, success, via, contacted, s, v, c);
    success, via, contacted, rest := s, v, c, rest[1..];

    assert rest[0] == Discord;
    s, v, c := Attempt(env, net, Discord, success, via, contacted);
    ChainStep(env, net, all, rest, success, via, contacted, s, v, c);
    success, via, contacted, rest := s, v, c, rest[1..];

    assert rest[0] == Slack;
    s, v, c := Attempt(env, net, Slack, success, via, contacted);
    ChainStep(env, net, all, rest, success, via, contacted, s, v, c);
    success, via, contacted, rest := s, v, c, rest[1..];

    assert rest[0] == Smtp;
    s, v, c := Attempt(env, net, Smtp, success, via, contacted);
    ChainStep(env, net, all, rest, success, via, contacted, s, v, c);
    success, via, contacted, rest := s, v, c, rest[1..];
    assert rest == [];
    ChainDone(env, net, contacted, success, via);
  }

  /** The handler: trimmed fields, the four checks with early returns, then the provider
      chain. `contacted` is the sequence of outbound sends made. */
  method OnRequestPost(req: Request, env: Env, net: Network) returns (resp: Response, contacted: seq<Provider>)
    ensures resp == Respond(req, env, net)
    ensures contacted == Contacted(req, env, net)
  {
    contacted := [];
    if req.Unreadable? {
      resp := Unexpected(UnexpectedError, req.error.GetOr(UnknownError));
      return;
    }
    var name := FieldValue(req.name);
    var email := FieldValue(req.email);
    var message := FieldValue(req.message);

    if name == [] || email == [] || message == [] {
      resp := BadRequest(MissingFields);
      return;
    }
    if |message| > MaxMessageLength {
      resp := BadRequest(MessageTooLong);
      return;
    }
    if !ValidEmail(email) {
      resp := BadRequest(InvalidEmail);
      return;
    }
    if !Truthy(env.toEmail) {
      resp := ServerError(MissingToEmail);
      return;
    }

    var success, via;
    success, via, contacted := TryProviders(env, net);
    if success {
      resp := Sent(SentMessage, via);
    } else {
      resp := NoService(NoServiceConfigured, Priority);
    }
  }

  // ---------------------------------------------------------------------------
  // Properties of the handler
  // ---------------------------------------------------------------------------

  /** A field that is missing or only white space trims to the empty string. */
  lemma BlankFieldIsEmpty(v: Option<string>)
    requires AllSpace(v.GetOr(""))
    ensures FieldValue(v) == []
  {
    TrimEmptyIffBlank(v.GetOr(""));
  }

  /** A field that is missing or only white space is rejected with 400 before anything is sent. */
  lemma MissingFieldRejected(n: Option<string>, e: Option<string>, m: Option<string>, env: Env, net: Network)
    requires AllSpace(n.GetOr("")) || AllSpace(e.GetOr("")) || AllSpace(m.GetOr(""))
    ensures Respond(Form(n, e, m), env, net) == BadRequest(MissingFields)
    ensures Contacted(Form(n, e, m), env, net) == []
  {
    if AllSpace(n.GetOr("")) {
      BlankFieldIsEmpty(n);
    } else if AllSpace(e.GetOr("")) {
      BlankFieldIsEmpty(e);
    } else {
      BlankFieldIsEmpty(m);
    }
    EmptyFieldRejected(FieldValue(n), FieldValue(e), FieldValue(m), env, net);
  }

  /** An empty trimmed field is answered with 400 before anything is sent. */
  lemma EmptyFieldRejected(name: string, email: string, message: string, env: Env, net: Network)
    requires name == [] || email == [] || message == []
    ensures Answer(name, email, message, env, net) == BadRequest(MissingFields)
    ensures Sends(name, email, message, env, net) == []
  {
  }

  /** The checks take precedence in a fixed order: missing fields, then length, then the
      address, then `TO_EMAIL`; whichever fails first decides the response, and a failed
      check means no provider is contacted. */
  lemma ErrorPrecedence(name: string, email: string, message: string, env: Env, net: Network)
    ensures var r := Answer(name, email, message, env, net);
      && (name == [] || email == [] || message == [] ==> r == BadRequest(MissingFields))
      && (name != [] && email != [] && message != [] && |message| > MaxMessageLength ==>
            r == BadRequest(MessageTooLong))
      && (name != [] && email != [] && message != [] && |message| <= MaxMessageLength && !ValidEmail(email) ==>
            r == BadRequest(InvalidEmail))
      && ((name != [] && email != [] && message != [] && |message| <= MaxMessageLength && ValidEmail(email)
           && !Truthy(env.toEmail)) ==> r == ServerError(MissingToEmail))
      && (r.BadRequest? || r.ServerError? ==> Sends(name, email, message, env, net) == [])
  {
  }

  /** A trimmed message of exactly 5000 characters passes the length check; one of 5001 fails it. */
  lemma MessageLengthBoundary(name: string, email: string, message: string, env: Env, net: Network)
    requires name != [] && ValidEmail(email) && Truthy(env.toEmail)
    ensures |message| == 5000 ==> Status(Answer(name, email, message, env, net)) != 400
    ensures |message| == 5001 ==> Answer(name, email, message, env, net) == BadRequest(MessageTooLong)
  {
    assert email != [];
  }

  /** A 200 response says "Message sent successfully" and names the provider whose send
      resolved to `true`: a configured one that is the last one contacted, with no configured provider before it succeeding. */
  lemma SentNamesFirstSuccess(name: string, email: string, message: string, env: Env, net: Network)
    requires Answer(name, email, message, env, net).Sent?
    ensures Status(Answer(name, email, message, env, net)) == 200
    ensures Answer(name, email, message, env, net).message == SentMessage
    ensures var c := Sends(name, email, message, env, net);
      exists p :: Answer(name, email, message, env, net).via == Name(p) && Configured(env, p) && OutcomeOf(net, p) == Ok
        && c != [] && c[|c| - 1] == p
        && forall q :: Rank(q) < Rank(p) && Configured(env, q) ==> OutcomeOf(net, q) != Ok
  {
    assert ValidationError(name, email, message, env).None?;
    var p := Delivered(env, net).value;
    DeliveredIsFirstSuccess(env, net, p);
    assert Sends(name, email, message, env, net) == Attempts(env, net, Priority);
  }

  /** Once the checks pass, the answer is 500 with the list of available methods exactly when
      no configured provider's send resolves to `true`, and otherwise 200. */
  lemma NoServiceIffAllFail(name: string, email: string, message: string, env: Env, net: Network)
    requires ValidationError(name, email, message, env).None?
    ensures Answer(name, email, message, env, net) == NoService(NoServiceConfigured, Priority) <==>
      forall q :: Configured(env, q) ==> OutcomeOf(net, q) != Ok
    ensures Status(Answer(name, email, message, env, net)) == 200 <==>
      exists q :: Configured(env, q) && OutcomeOf(net, q) == Ok
  {
    NothingDeliveredIffAllFail(env, net);
  }

  /** With only SMTP configured, the placeholder send fails and the answer is the 500 listing
      the available methods, after exactly one attempt. */
  lemma SmtpOnlyFails(name: string, email: string, message: string, env: Env, net: Network)
    requires ValidationError(name, email, message, env).None?
    requires !Configured(env, Resend) && !Configured(env, Discord) && !Configured(env, Slack)
    requires Configured(env, Smtp)
    ensures Answer(name, email, message, env, net) == NoService(NoServiceConfigured, Priority)
    ensures Sends(name, email, message, env, net) == [Smtp]
  {
    NothingDeliveredIffAllFail(env, net);
    var ps := Priority;
    AttemptsUnfold(env, net, ps);
    ps := ps[1..];
    assert ps[0] == Discord;
    AttemptsUnfold(env, net, ps);
    ps := ps[1..];
    assert ps[0] == Slack;
    AttemptsUnfold(env, net, ps);
    ps := ps[1..];
    assert ps[0] == Smtp;
    AttemptsUnfold(env, net, ps);
    assert ps[1..] == [];
  }

  /** A provider that fails or throws passes the message on: if the first two configured
      providers are Resend, failing, and Discord, succeeding, the answer names Discord and
      each was contacted once. */
  lemma FallThroughToNext(name: string, email: string, message: string, env: Env, net: Network)
    requires ValidationError(name, email, message, env).None?
    requires Configured(env, Resend) && net.resend != Ok
    requires Configured(env, Discord) && net.discord == Ok
    ensures Answer(name, email, message, env, net) == Sent(SentMessage, "discord")
    ensures Sends(name, email, message, env, net) == [Resend, Discord]
  {
    DeliveredIsFirstSuccess(env, net, Discord);
    var ps := Priority;
    AttemptsUnfold(env, net, ps);
    ps := ps[1..];
    assert ps[0] == Discord;
    AttemptsUnfold(env, net, ps);
  }

  /** The 500 answer without a provider lists every provider once, in priority order. */
  lemma AvailableMethodsListAll(name: string, email: string, message: string, env: Env, net: Network)
    requires Answer(name, email, message, env, net).NoService?
    ensures var listed := Answer(name, email, message, env, net).availableMethods;
      Increasing(listed) && forall p :: p in listed
  {
    PriorityFacts();
  }

  // ---------------------------------------------------------------------------
  // The Discord embed
  // ---------------------------------------------------------------------------

  const DiscordFieldLimit := 1000

  /** The value of the embed's "Message" field: the message, cut to its first 1000
      characters followed by "..." when it is longer. */
  function DiscordMessageField(message: string): (r: string)
    ensures |message| <= DiscordFieldLimit ==> r == message
    ensures |r| <= DiscordFieldLimit + 3
    ensures |message| > DiscordFieldLimit ==> message[..DiscordFieldLimit] + "..." == r
  {
    if |message| > DiscordFieldLimit then message[..DiscordFieldLimit] + "..." else message
  }
}
