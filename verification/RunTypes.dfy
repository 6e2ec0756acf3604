/** The values exchanged by the no-effect device task protocol: signed plans,
    leases, execution results and sealed run checkpoints. Instants are integer
    milliseconds; `None` stands for a text that does not parse as a date. */
module RunTypes {
  import opened Common

  type Id = string
  type Millis = int

  const MAX_SAFE_INTEGER := 9007199254740991

  /** `wellFormed` is the verdict of the field-by-field envelope validator. */
  datatype Envelope = Envelope(
    tenantId: Id, userId: Id, deviceId: Id,
    allowedEffects: seq<string>, approvalGrants: seq<string>,
    content: string, wellFormed: bool)

  /** `authentic` is the verdict of every time-independent check on a signed plan:
      contract, identifiers, digests and signature. */
  datatype Plan = Plan(planId: Id, envelope: Envelope, issuedAt: Millis, expiresAt: Millis, authentic: bool)

  predicate PlanValid(plan: Plan, now: Millis) {
    plan.authentic && plan.envelope.wellFormed && plan.issuedAt <= now < plan.expiresAt
  }

  /** A plan that was ever valid is valid at the instant it was issued. */
  lemma ValidPlanWasValidWhenIssued(plan: Plan, now: Millis)
    requires PlanValid(plan, now)
    ensures PlanValid(plan, plan.issuedAt)
  {
  }

  datatype Lease = Lease(
    schemaVersion: int, taskId: Id, planId: Id, plan: Plan, deviceId: Id, leaseToken: string,
    attempt: int, leasedAt: Option<Millis>, expiresAt: Option<Millis>, externalWrites: bool)

  datatype Outcome = Succeeded | Failed | Cancelled

  datatype ExecutorOutput = ExecutorOutput(outcome: Outcome, summaryCode: string, artifactDigests: seq<string>)

  datatype RunResult = RunResult(
    taskId: Id, deviceId: Id, planId: Id, outcome: Outcome,
    summaryCode: string, artifactDigests: seq<string>, completedAt: Option<Millis>)

  datatype RunState =
    | Leased | Accepted | Running | Paused | CompletedPendingSync | Synced | RunCancelled
    | Unrecognised(text: string)

  /** Content digests are injective, so a digest is represented by what it digests. */
  datatype ContextDigest = ContextDigest(envelope: Envelope)

  datatype Run = Run(
    schemaVersion: int, taskId: Id, deviceId: Id, plan: Plan, executorId: Id,
    contextDigest: ContextDigest, state: RunState, revision: int, result: Option<RunResult>,
    recordingSink: bool, externalWrites: bool, updatedAt: Option<Millis>)

  datatype RunDigest = RunDigest(run: Run)

  datatype Checkpoint = Checkpoint(run: Run, digest: RunDigest)

  function Seal(run: Run): Checkpoint {
    Checkpoint(run, RunDigest(run))
  }

  // ---- Text shapes ----

  predicate LowerAlnum(c: char) {
    'a' <= c <= 'z' || '0' <= c <= '9'
  }

  predicate IsSegment(s: string) {
    1 <= |s| <= 64 && LowerAlnum(s[0])
    && forall i :: 0 <= i < |s| ==> LowerAlnum(s[i]) || s[i] == '.' || s[i] == '-'
  }

  /** One safe segment, or two separated by a slash. */
  predicate IsIdentifier(s: string) {
    IsSegment(s) || exists i :: 0 <= i < |s| && s[i] == '/' && IsSegment(s[..i]) && IsSegment(s[i + 1..])
  }

  predicate IsDigest(s: string) {
    |s| == 71 && s[..7] == "sha256:"
    && forall i :: 7 <= i < 71 ==> '0' <= s[i] <= '9' || 'a' <= s[i] <= 'f'
  }

  function Lower(c: char): char {
    if 'A' <= c <= 'Z' then c - 'A' + 'a' else c
  }

  function LowerText(s: string): (r: string)
    ensures |r| == |s| && forall i :: 0 <= i < |s| ==> r[i] == Lower(s[i])
  {
    seq(|s|, i requires 0 <= i < |s| => Lower(s[i]))
  }

  predicate WordAt(s: string, i: int, word: string) {
    0 <= i && i + |word| <= |s| && s[i..i + |word|] == word
  }

  predicate IsSlash(c: char) {
    c == '/' || c == '\\'
  }

  /** A home-directory path, or a secret-shaped name followed by an assignment sign.
      `s` is lower case already. */
  predicate UnsafeLowerText(s: string) {
    || (exists i :: 0 <= i < |s| && WordAt(s, i, "users") && (i == 0 || IsSlash(s[i - 1])) && i + 5 < |s| && IsSlash(s[i + 5]))
    || (exists i, j :: 0 <= i < j < |s| && SecretWord(s[i..j]) && AssignedAt(s, j))
  }

  predicate SecretWord(w: string) {
    w == "token" || w == "secret" || w == "password" || w == "privatekey" || w == "private_key" || w == "private-key"
  }

  predicate AssignedAt(s: string, j: nat) {
    exists k :: j <= k < |s| && (s[k] == ':' || s[k] == '=') && forall m :: j <= m < k ==> WhiteSpace(s[m])
  }

  predicate UnsafeText(s: string) {
    UnsafeLowerText(LowerText(s))
  }

  lemma LowerOfJoin(a: string, b: string)
    ensures LowerText(a + b) == LowerText(a) + LowerText(b)
  {
  }

  /** A home directory at the start of a text or behind a slash makes it unsafe, in capitals or not. */
  lemma HomePathIsUnsafe(before: string, users: string, slash: char, after: string)
    requires LowerText(users) == "users" && IsSlash(slash) && (before == "" || IsSlash(before[|before| - 1]))
    ensures UnsafeText(before + users + [slash] + after)
  {
    var s := LowerText(before + users + [slash] + after);
    LowerOfJoin(before, users);
    LowerOfJoin(before + users, [slash]);
    LowerOfJoin(before + users + [slash], after);
    var i := |before|;
    assert s[i..i + 5] == "users";
    assert WordAt(s, i, "users") && IsSlash(s[i + 5]) && (i > 0 ==> s[i - 1] == before[i - 1]);
  }

  /** So does a secret's name with an assignment sign behind it, spaces between them or not. */
  lemma SecretIsUnsafe(before: string, name: string, spaces: string, sign: char, after: string)
    requires SecretWord(LowerText(name)) && (sign == ':' || sign == '=') && forall c | c in spaces :: WhiteSpace(c)
    ensures UnsafeText(before + name + spaces + [sign] + after)
  {
    var text := before + name + spaces + [sign] + after;
    var s := LowerText(text);
    var i, j, k := |before|, |before| + |name|, |before| + |name| + |spaces|;
    assert text[i..j] == name && text[k] == sign;
    assert s[i..j] == LowerText(name);
    forall m | j <= m < k ensures WhiteSpace(s[m]) {
      assert text[m] == spaces[m - j] && spaces[m - j] in spaces;
    }
    assert s[k] == sign && AssignedAt(s, j);
  }

  /** A text without slashes, colons and equals signs is safe. */
  lemma PlainTextIsSafe(s: string)
    requires forall c | c in s :: !IsSlash(c) && c != ':' && c != '='
    ensures !UnsafeText(s)
  {
    var t := LowerText(s);
    forall i | 0 <= i < |t| ensures !IsSlash(t[i]) && t[i] != ':' && t[i] != '=' {
      assert s[i] in s;
    }
  }

  /** The privacy bound every stored or submitted result must meet. */
  predicate PrivacyBounded(summaryCode: string, artifactDigests: seq<string>) {
    summaryCode != "" && !UnsafeText(summaryCode) && forall d | d in artifactDigests :: IsDigest(d)
  }
}
