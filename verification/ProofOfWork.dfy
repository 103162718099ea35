/**
 Registration challenges. A challenge is a signed payload; a solved one is accepted and remembered by
 a hash of its payload until it expires. The checks before the lock are pure; what runs under the lock
 is one step, at the clock reading taken before the lock. Cryptography and number parsing are parameters.
 */
module ProofOfWork {
  import opened Basics
  import opened LeadingZeros

  /** Functions of libraries that are not part of the model. */
  datatype Library = Library(
    trim: string -> string,
    parseInt: string -> Option<int>,
    decode: string -> Option<seq<Byte>>,
    sign: string -> seq<Byte>,
    hash: string -> Digest,
    digest: (string, string, string, int) -> Digest)

  type Digest = d: seq<Byte> | |d| == 32 witness seq(32, _ => 0)

  const VERSION := "v1"
  const SECOND: int := 1_000_000_000
  const CLEANUP_INTERVAL: int := 60 * SECOND
  const MAX_NONCE_DIGITS := 20

  datatype Proof = Proof(challenge: string, nonce: string, username: string, inviteCode: string)

  datatype Outcome = Accepted | Required | Invalid | Expired | Replayed | Saturated

  // ---------- splitting tokens ----------

  function Split(s: string): (parts: seq<string>)
    ensures parts != []
  {
    if s == "" then [""]
    else if s[0] == '.' then [""] + Split(s[1..])
    else
      var rest := Split(s[1..]);
      [[s[0]] + rest[0]] + rest[1..]
  }

  function Join(parts: seq<string>): string
    requires parts != []
  {
    if |parts| == 1 then parts[0] else parts[0] + "." + Join(parts[1..])
  }

  predicate NoDots(parts: seq<string>) {
    forall i :: 0 <= i < |parts| ==> '.' !in parts[i]
  }

  lemma {:induction false} SplitHasNoDots(s: string)
    ensures NoDots(Split(s))
  {
    if s != "" {
      SplitHasNoDots(s[1..]);
    }
  }

  lemma {:induction false} SplitFirst(p: string, rest: string)
    requires '.' !in p
    ensures Split(p + "." + rest) == [p] + Split(rest)
  {
    var s := p + "." + rest;
    if p == "" {
      assert s[1..] == rest;
    } else {
      assert s[1..] == p[1..] + "." + rest;
      SplitFirst(p[1..], rest);
      assert [s[0]] + p[1..] == p;
    }
  }

  lemma {:induction false} SplitOne(p: string)
    requires '.' !in p
    ensures Split(p) == [p]
  {
    if p != "" {
      SplitOne(p[1..]);
      assert [p[0]] + p[1..] == p;
    }
  }

  /** Joined parts split into the same parts again. */
  lemma {:induction false} SplitJoin(parts: seq<string>)
    requires parts != [] && NoDots(parts)
    ensures Split(Join(parts)) == parts
  {
    if |parts| == 1 {
      SplitOne(parts[0]);
    } else {
      SplitJoin(parts[1..]);
      SplitFirst(parts[0], Join(parts[1..]));
    }
  }

  // ---------- the checks before the lock ----------

  datatype Challenge = Challenge(expiresAt: int, difficultyBits: nat, payload: string)

  /** parseAndVerifyChallenge */
  function Parse(lib: Library, token: string): Option<Challenge> {
    var parts := Split(token);
    if |parts| != 5 || parts[0] != VERSION then None
    else if lib.parseInt(parts[1]).None? then None
    else if lib.parseInt(parts[2]).None? || !(1 <= lib.parseInt(parts[2]).value <= 32) then None
    else if lib.decode(parts[3]).None? then None
    else if lib.decode(parts[4]) != Some(lib.sign(Join(parts[..4]))) then None
    else Some(Challenge(lib.parseInt(parts[1]).value * SECOND, lib.parseInt(parts[2]).value, Join(parts[..4])))
  }

  /** A token's expiry is part of its payload, whatever spelling its signature has. */
  lemma ExpiryFromPayload(lib: Library, token: string, other: string)
    requires Parse(lib, token).Some? && Parse(lib, other).Some?
    requires Parse(lib, token).value.payload == Parse(lib, other).value.payload
    ensures Parse(lib, token) == Parse(lib, other)
  {
    var a, b := Split(token), Split(other);
    SplitHasNoDots(token);
    SplitHasNoDots(other);
    SplitJoin(a[..4]);
    SplitJoin(b[..4]);
    assert a[..4][1] == b[..4][1] && a[..4][2] == b[..4][2];
  }

  function Decimal(digits: string): int {
    if digits == "" then 0 else 10 * Decimal(digits[..|digits| - 1]) + (digits[|digits| - 1] as int - '0' as int)
  }

  /** parseRegistrationProofNonce: up to twenty digits whose value fits in 64 bits */
  function ParseNonce(lib: Library, raw: string): Option<int> {
    var nonce := lib.trim(raw);
    if |nonce| == 0 || |nonce| > MAX_NONCE_DIGITS || exists i :: 0 <= i < |nonce| && !('0' <= nonce[i] <= '9') then None
    else if Decimal(nonce) < 0x1_0000_0000_0000_0000 then Some(Decimal(nonce)) else None
  }

  /** The checks of verifyAndConsume up to its lock. */
  function Check(lib: Library, proof: Proof, now: int): Outcome {
    if lib.trim(proof.challenge) == "" || lib.trim(proof.nonce) == "" then Required
    else if Parse(lib, proof.challenge).None? then Invalid
    else
      var c := Parse(lib, proof.challenge).value;
      if c.expiresAt <= now then Expired
      else if ParseNonce(lib, proof.nonce).None? then Invalid
      else if Solved(lib, proof, c.difficultyBits) then Accepted else Invalid
  }

  /** The digest of the proof is below the difficulty's threshold. */
  predicate Solved(lib: Library, proof: Proof, difficultyBits: nat)
    requires difficultyBits <= 256 && ParseNonce(lib, proof.nonce).Some?
  {
    Value(ProofDigest(lib, proof)) < Pow2(256 - difficultyBits)
  }

  function ProofDigest(lib: Library, proof: Proof): Digest
    requires ParseNonce(lib, proof.nonce).Some?
  {
    lib.digest(proof.challenge, proof.username, proof.inviteCode, ParseNonce(lib, proof.nonce).value)
  }

  // ---------- the replay table ----------

  datatype Table = Table(used: map<Digest, int>, lastCleanup: int, maximum: nat, saturationLogged: bool)

  function Unexpired(used: map<Digest, int>, now: int): map<Digest, int> {
    map k | k in used && used[k] > now :: used[k]
  }

  /** cleanupUsedChallengesLocked */
  function Cleanup(t: Table, now: int): Table {
    if now - t.lastCleanup < CLEANUP_INTERVAL && |t.used| < t.maximum then t
    else
      var used := Unexpired(t.used, now);
      t.(used := used, lastCleanup := now, saturationLogged := t.saturationLogged && |used| >= t.maximum)
  }

  datatype Submission = Submission(proof: Proof, now: int)

  function Verdict(lib: Library, t: Table, s: Submission): Outcome {
    var check := Check(lib, s.proof, s.now);
    if check != Accepted then check
    else
      var t1 := Cleanup(t, s.now);
      if lib.hash(Parse(lib, s.proof.challenge).value.payload) in t1.used then Replayed
      else if |t1.used| >= t1.maximum then Saturated
      else Accepted
  }

  /** verifyAndConsume */
  function Submit(lib: Library, t: Table, s: Submission): Table {
    if Check(lib, s.proof, s.now) != Accepted then t
    else
      var t1 := Cleanup(t, s.now);
      match Verdict(lib, t, s)
      case Accepted =>
        var c := Parse(lib, s.proof.challenge).value;
        t1.(used := t1.used[lib.hash(c.payload) := c.expiresAt])
      case Saturated => t1.(saturationLogged := true)
      case _ => t1
  }

  function Run(lib: Library, t: Table, subs: seq<Submission>): Table {
    if subs == [] then t else Submit(lib, Run(lib, t, subs[..|subs| - 1]), subs[|subs| - 1])
  }

  function New(maximum: nat, now: int): Table {
    Table(map[], now, maximum, false)
  }

  /** The verdict on the i-th submission of a run. */
  function VerdictAt(lib: Library, t: Table, subs: seq<Submission>, i: nat): Outcome
    requires i < |subs|
  {
    Verdict(lib, Run(lib, t, subs[..i]), subs[i])
  }

  // ---------- at most once ----------

  lemma UnexpiredSize(used: map<Digest, int>, now: int)
    ensures |Unexpired(used, now)| <= |used|
  {
    assert Unexpired(used, now).Keys <= used.Keys;
    SubsetSize(Unexpired(used, now).Keys, used.Keys);
    assert |Unexpired(used, now)| == |Unexpired(used, now).Keys| && |used| == |used.Keys|;
  }

  /** The replay table never outgrows its bound. */
  lemma {:induction false} TableStaysBounded(lib: Library, maximum: nat, start: int, subs: seq<Submission>)
    ensures var t := Run(lib, New(maximum, start), subs); |t.used| <= t.maximum == maximum
  {
    if subs != [] {
      TableStaysBounded(lib, maximum, start, subs[..|subs| - 1]);
      UnexpiredSize(Run(lib, New(maximum, start), subs[..|subs| - 1]).used, subs[|subs| - 1].now);
    }
  }

  /** A submission that has the table cleaned at a reading at or past an expiry. */
  predicate Forgets(lib: Library, t: Table, s: Submission, expiresAt: int) {
    && Check(lib, s.proof, s.now).Accepted? && s.now >= expiresAt
    && (s.now - t.lastCleanup >= CLEANUP_INTERVAL || |t.used| >= t.maximum)
  }

  /** The k-th submission of a run is one. */
  predicate ForgetsAt(lib: Library, t: Table, subs: seq<Submission>, k: nat, expiresAt: int)
    requires k < |subs|
  {
    Forgets(lib, Run(lib, t, subs[..k]), subs[k], expiresAt)
  }

  ghost predicate ForgottenBetween(lib: Library, t: Table, subs: seq<Submission>, i: nat, j: nat, expiresAt: int)
    requires j <= |subs|
  {
    exists k :: i < k < j && ForgetsAt(lib, t, subs, k, expiresAt)
  }

  predicate AcceptsKey(lib: Library, t: Table, s: Submission, key: Digest) {
    Verdict(lib, t, s).Accepted? && lib.hash(Parse(lib, s.proof.challenge).value.payload) == key
  }

  predicate AcceptsKeyAt(lib: Library, t: Table, subs: seq<Submission>, k: nat, key: Digest)
    requires k < |subs|
  {
    AcceptsKey(lib, Run(lib, t, subs[..k]), subs[k], key)
  }

  ghost predicate NotAcceptedBetween(lib: Library, t: Table, subs: seq<Submission>, i: nat, j: nat, key: Digest)
    requires j <= |subs|
  {
    forall k :: i < k < j ==> !AcceptsKeyAt(lib, t, subs, k, key)
  }

  lemma KeyStays(lib: Library, t: Table, s: Submission, key: Digest)
    requires key in t.used && !Forgets(lib, t, s, t.used[key])
    ensures key in Submit(lib, t, s).used && Submit(lib, t, s).used[key] == t.used[key]
  {
  }

  lemma KeyGoes(lib: Library, t: Table, s: Submission, key: Digest)
    requires !AcceptsKey(lib, t, s, key) && (key in t.used ==> Forgets(lib, t, s, t.used[key]))
    ensures key !in Submit(lib, t, s).used
  {
  }

  /** An accepted challenge is in the table exactly as long as no submission has had it cleaned past its expiry. */
  lemma RememberedUnlessForgotten(lib: Library, t: Table, subs: seq<Submission>, i: nat, j: nat)
    requires i < j <= |subs| && VerdictAt(lib, t, subs, i).Accepted?
    requires NotAcceptedBetween(lib, t, subs, i, j, lib.hash(Parse(lib, subs[i].proof.challenge).value.payload))
    ensures var c := Parse(lib, subs[i].proof.challenge).value;
            var used := Run(lib, t, subs[..j]).used;
            && (lib.hash(c.payload) in used <==> !ForgottenBetween(lib, t, subs, i, j, c.expiresAt))
            && (lib.hash(c.payload) in used ==> used[lib.hash(c.payload)] == c.expiresAt)
  {
    var c := Parse(lib, subs[i].proof.challenge).value;
    FirstRemembered(lib, t, subs, i);
    RememberedFrom(lib, t, subs, i, j, c);
  }

  ghost predicate Remembered(lib: Library, t: Table, subs: seq<Submission>, i: nat, j: nat, c: Challenge)
    requires j <= |subs|
  {
    var used := Run(lib, t, subs[..j]).used;
    && (lib.hash(c.payload) in used <==> !ForgottenBetween(lib, t, subs, i, j, c.expiresAt))
    && (lib.hash(c.payload) in used ==> used[lib.hash(c.payload)] == c.expiresAt)
  }

  lemma FirstRemembered(lib: Library, t: Table, subs: seq<Submission>, i: nat)
    requires i < |subs| && VerdictAt(lib, t, subs, i).Accepted?
    ensures Remembered(lib, t, subs, i, i + 1, Parse(lib, subs[i].proof.challenge).value)
  {
    OneMoreSubmission(lib, t, subs, i + 1);
    OneMoreChance(lib, t, subs, i, i + 1, Parse(lib, subs[i].proof.challenge).value.expiresAt);
    AcceptedIsRemembered(lib, Run(lib, t, subs[..i]), subs[i]);
  }

  lemma {:induction false} RememberedFrom(lib: Library, t: Table, subs: seq<Submission>, i: nat, j: nat, c: Challenge)
    requires i < j <= |subs| && Remembered(lib, t, subs, i, i + 1, c)
    requires NotAcceptedBetween(lib, t, subs, i, j, lib.hash(c.payload))
    ensures Remembered(lib, t, subs, i, j, c)
    decreases j
  {
    if i + 1 < j {
      RememberedFrom(lib, t, subs, i, j - 1, c);
      StillRemembered(lib, t, subs, i, j, c);
    }
  }

  lemma StillRemembered(lib: Library, t: Table, subs: seq<Submission>, i: nat, j: nat, c: Challenge)
    requires i < j - 1 < |subs| && Remembered(lib, t, subs, i, j - 1, c)
    requires !AcceptsKeyAt(lib, t, subs, j - 1, lib.hash(c.payload))
    ensures Remembered(lib, t, subs, i, j, c)
  {
    OneMoreSubmission(lib, t, subs, j);
    OneMoreChance(lib, t, subs, i, j, c.expiresAt);
    KeyStep(lib, Run(lib, t, subs[..j - 1]), subs[j - 1], lib.hash(c.payload), c.expiresAt);
  }

  lemma OneMoreSubmission(lib: Library, t: Table, subs: seq<Submission>, j: nat)
    requires 0 < j <= |subs|
    ensures Run(lib, t, subs[..j]) == Submit(lib, Run(lib, t, subs[..j - 1]), subs[j - 1])
  {
    assert subs[..j][..j - 1] == subs[..j - 1];
  }

  lemma OneMoreChance(lib: Library, t: Table, subs: seq<Submission>, i: nat, j: nat, e: int)
    requires i < j <= |subs|
    ensures ForgottenBetween(lib, t, subs, i, j, e)
            <==> i < j - 1 && (ForgottenBetween(lib, t, subs, i, j - 1, e) || ForgetsAt(lib, t, subs, j - 1, e))
  {
  }

  lemma AcceptedIsRemembered(lib: Library, t: Table, s: Submission)
    requires Verdict(lib, t, s).Accepted?
    ensures var c := Parse(lib, s.proof.challenge).value;
            lib.hash(c.payload) in Submit(lib, t, s).used && Submit(lib, t, s).used[lib.hash(c.payload)] == c.expiresAt
  {
  }

  /** A key that no submission accepts stays exactly while it is there and not forgotten. */
  lemma KeyStep(lib: Library, t: Table, s: Submission, key: Digest, e: int)
    requires !AcceptsKey(lib, t, s, key) && (key in t.used ==> t.used[key] == e)
    ensures key in Submit(lib, t, s).used <==> key in t.used && !Forgets(lib, t, s, e)
    ensures key in Submit(lib, t, s).used ==> Submit(lib, t, s).used[key] == e
  {
    if key in t.used && !Forgets(lib, t, s, e) {
      KeyStays(lib, t, s, key);
    } else {
      KeyGoes(lib, t, s, key);
    }
  }

  /**
   The exact fate of a challenge that was accepted once, for any table, run and clock: a later submission of the same
   payload, with whatever spelling of its signature, that passes its checks is a replay if and only if no submission
   since the last acceptance passed its checks, read a time at or past the expiry and found a cleanup due. Otherwise
   it is accepted again, or refused because the table is full.
   */
  lemma SecondVerdictIsExact(lib: Library, t: Table, subs: seq<Submission>, i: nat, j: nat)
    requires i < j < |subs| && VerdictAt(lib, t, subs, i).Accepted? && Check(lib, subs[j].proof, subs[j].now).Accepted?
    requires Parse(lib, subs[i].proof.challenge).value.payload == Parse(lib, subs[j].proof.challenge).value.payload
    requires NotAcceptedBetween(lib, t, subs, i, j, lib.hash(Parse(lib, subs[i].proof.challenge).value.payload))
    ensures var forgotten := ForgottenBetween(lib, t, subs, i, j, Parse(lib, subs[i].proof.challenge).value.expiresAt);
            var table := Cleanup(Run(lib, t, subs[..j]), subs[j].now);
            && (VerdictAt(lib, t, subs, j).Replayed? <==> !forgotten)
            && (VerdictAt(lib, t, subs, j).Accepted? <==> forgotten && |table.used| < table.maximum)
            && (VerdictAt(lib, t, subs, j).Saturated? <==> forgotten && |table.used| >= table.maximum)
  {
    ExpiryFromPayload(lib, subs[i].proof.challenge, subs[j].proof.challenge);
    RememberedUnlessForgotten(lib, t, subs, i, j);
  }

  /** The first submission after the i-th that forgets the challenge, if the challenge is gone by the j-th. */
  lemma {:induction false} GoneMeansForgotten(lib: Library, t: Table, subs: seq<Submission>, i: nat, j: nat)
    requires i < j <= |subs| && VerdictAt(lib, t, subs, i).Accepted?
    ensures var c := Parse(lib, subs[i].proof.challenge).value;
            var used := Run(lib, t, subs[..j]).used;
            || ForgottenBetween(lib, t, subs, i, j, c.expiresAt)
            || (lib.hash(c.payload) in used && used[lib.hash(c.payload)] == c.expiresAt)
    decreases j
  {
    var before := Run(lib, t, subs[..j - 1]);
    var c := Parse(lib, subs[i].proof.challenge).value;
    OneMoreSubmission(lib, t, subs, j);
    OneMoreChance(lib, t, subs, i, j, c.expiresAt);
    if i < j - 1 {
      GoneMeansForgotten(lib, t, subs, i, j - 1);
      if !ForgottenBetween(lib, t, subs, i, j, c.expiresAt) {
        KeyStays(lib, before, subs[j - 1], lib.hash(c.payload));
      }
    } else {
      AcceptedIsRemembered(lib, before, subs[i]);
    }
  }

  /**
   If one payload is accepted twice, whatever was accepted in between, then a submission between the two had the
   table cleaned at a reading at or past the expiry while the second acceptance read an earlier one.
   */
  lemma AcceptedTwiceNeedsClockGoingBack(lib: Library, t: Table, subs: seq<Submission>, i: nat, j: nat)
    requires i < j < |subs| && VerdictAt(lib, t, subs, i).Accepted? && VerdictAt(lib, t, subs, j).Accepted?
    requires Parse(lib, subs[i].proof.challenge).value.payload == Parse(lib, subs[j].proof.challenge).value.payload
    ensures var e := Parse(lib, subs[i].proof.challenge).value.expiresAt;
            e > subs[j].now && ForgottenBetween(lib, t, subs, i, j, e)
  {
    ExpiryFromPayload(lib, subs[i].proof.challenge, subs[j].proof.challenge);
    GoneMeansForgotten(lib, t, subs, i, j);
  }

  predicate ClockOrdered(subs: seq<Submission>) {
    forall i, j :: 0 <= i < j < |subs| ==> subs[i].now <= subs[j].now
  }

  /** With a clock that does not go back, no payload is accepted twice. */
  lemma AcceptedAtMostOnce(lib: Library, t: Table, subs: seq<Submission>, i: nat, j: nat)
    requires ClockOrdered(subs) && i < j < |subs| && VerdictAt(lib, t, subs, i).Accepted? && VerdictAt(lib, t, subs, j).Accepted?
    ensures Parse(lib, subs[i].proof.challenge).value.payload != Parse(lib, subs[j].proof.challenge).value.payload
  {
    if Parse(lib, subs[i].proof.challenge).value.payload == Parse(lib, subs[j].proof.challenge).value.payload {
      AcceptedTwiceNeedsClockGoingBack(lib, t, subs, i, j);
      assert false;
    }
  }

  /** Two different payloads with the same hash. */
  predicate Collides(lib: Library, p: Proof, q: Proof) {
    var a, b := Parse(lib, p.challenge), Parse(lib, q.challenge);
    a.Some? && b.Some? && a.value.payload != b.value.payload && lib.hash(a.value.payload) == lib.hash(b.value.payload)
  }

  predicate AcceptedBefore(lib: Library, t: Table, subs: seq<Submission>, j: nat, key: Digest)
    requires j <= |subs|
  {
    exists i :: 0 <= i < j && VerdictAt(lib, t, subs, i).Accepted?
                && lib.hash(Parse(lib, subs[i].proof.challenge).value.payload) == key
  }

  /** Every key in the table is that of a challenge accepted earlier. */
  lemma {:induction false} UsedWereAccepted(lib: Library, maximum: nat, start: int, subs: seq<Submission>, j: nat, key: Digest)
    requires j <= |subs| && key in Run(lib, New(maximum, start), subs[..j]).used
    ensures AcceptedBefore(lib, New(maximum, start), subs, j, key)
  {
    var t := New(maximum, start);
    if j > 0 {
      assert subs[..j][..j - 1] == subs[..j - 1];
      var before := Run(lib, t, subs[..j - 1]);
      assert Run(lib, t, subs[..j]) == Submit(lib, before, subs[j - 1]);
      if key in before.used {
        UsedWereAccepted(lib, maximum, start, subs, j - 1, key);
      } else {
        NewKeyWasAccepted(lib, before, subs[j - 1], key);
        assert VerdictAt(lib, t, subs, j - 1).Accepted?;
      }
    }
  }

  lemma NewKeyWasAccepted(lib: Library, t: Table, s: Submission, key: Digest)
    requires key !in t.used && key in Submit(lib, t, s).used
    ensures Verdict(lib, t, s).Accepted? && lib.hash(Parse(lib, s.proof.challenge).value.payload) == key
  {
  }

  /**
   With an ordered clock and no hash collision with an earlier payload of the run, a solved and unexpired challenge
   is called a replay if and only if its payload was accepted before.
   */
  lemma ReplayedIffAcceptedBefore(lib: Library, maximum: nat, start: int, subs: seq<Submission>, j: nat)
    requires ClockOrdered(subs) && j < |subs| && Check(lib, subs[j].proof, subs[j].now).Accepted?
    requires forall i :: 0 <= i < j ==> !Collides(lib, subs[i].proof, subs[j].proof)
    ensures var t := New(maximum, start);
            VerdictAt(lib, t, subs, j).Replayed?
            <==> exists i :: 0 <= i < j && VerdictAt(lib, t, subs, i).Accepted?
                             && Parse(lib, subs[i].proof.challenge).value.payload == Parse(lib, subs[j].proof.challenge).value.payload
  {
    var t := New(maximum, start);
    var c := Parse(lib, subs[j].proof.challenge).value;
    if VerdictAt(lib, t, subs, j).Replayed? {
      UsedWereAccepted(lib, maximum, start, subs, j, lib.hash(c.payload));
    }
    if i :| 0 <= i < j && VerdictAt(lib, t, subs, i).Accepted? && Parse(lib, subs[i].proof.challenge).value.payload == c.payload {
      ExpiryFromPayload(lib, subs[i].proof.challenge, subs[j].proof.challenge);
      GoneMeansForgotten(lib, t, subs, i, j);
    }
  }

  /**
   With clock readings out of order a payload can be accepted twice: after a submission that read a time past its
   expiry had the table cleaned, one that read an earlier time is accepted again.
   */
  lemma ClockGoingBackAcceptsTwice(lib: Library, p: Proof, q: Proof, t1: int, t2: int, t3: int, maximum: nat)
    requires Check(lib, p, t1).Accepted? && Check(lib, q, t2).Accepted? && Check(lib, p, t3).Accepted?
    requires lib.hash(Parse(lib, p.challenge).value.payload) != lib.hash(Parse(lib, q.challenge).value.payload)
    requires t3 < Parse(lib, p.challenge).value.expiresAt <= t2 && t1 + CLEANUP_INTERVAL <= t2 && maximum >= 2
    ensures var subs := [Submission(p, t1), Submission(q, t2), Submission(p, t3)];
            VerdictAt(lib, New(maximum, t1), subs, 0).Accepted? && VerdictAt(lib, New(maximum, t1), subs, 2).Accepted?
  {
    var subs := [Submission(p, t1), Submission(q, t2), Submission(p, t3)];
    var a := lib.hash(Parse(lib, p.challenge).value.payload);
    var b := lib.hash(Parse(lib, q.challenge).value.payload);
    var t := New(maximum, t1);
    assert subs[..2][..1] == subs[..1] && subs[..1][..0] == [] && subs[..0] == [];
    assert Run(lib, t, []) == t;
    var u := Submit(lib, t, subs[0]);
    assert Run(lib, t, subs[..1]) == u;
    assert u.used == map[a := Parse(lib, p.challenge).value.expiresAt];
    var v := Submit(lib, u, subs[1]);
    assert Run(lib, t, subs[..2]) == v;
    assert Unexpired(u.used, t2) == map[];
    assert v.used == map[b := Parse(lib, q.challenge).value.expiresAt] && v.lastCleanup == t2;
    assert a !in Unexpired(v.used, t3);
  }

  /** A library small enough to follow by hand. */
  const TOY := Library(
    (s: string) => s,
    (s: string) => Some(if s == "a" then 100 else if s == "b" then 300 else 1),
    (s: string) => Some([]),
    (s: string) => [],
    (s: string) => if s == Join(["v1", "a", "1", ""]) then seq(32, _ => 0) else seq(32, _ => 1),
    (_, _, _, _) => seq(32, _ => 0))

  function ToyProof(expiry: string): Proof {
    Proof(Join(["v1", expiry, "1", "", ""]), "0", "", "")
  }

  lemma ToyParses(expiry: string)
    requires expiry == "a" || expiry == "b"
    ensures Parse(TOY, ToyProof(expiry).challenge)
            == Some(Challenge((if expiry == "a" then 100 else 300) * SECOND, 1, Join(["v1", expiry, "1", ""])))
  {
    var parts := ["v1", expiry, "1", "", ""];
    SplitJoin(parts);
    assert parts[..4] == ["v1", expiry, "1", ""];
  }

  lemma ToyAccepts(expiry: string, now: int)
    requires expiry == "a" || expiry == "b"
    requires now < (if expiry == "a" then 100 else 300) * SECOND
    ensures Check(TOY, ToyProof(expiry), now).Accepted?
  {
    ToyParses(expiry);
    ToyTrims(expiry);
    ToySolves(ToyProof(expiry));
    PassesChecks(TOY, ToyProof(expiry), now);
  }

  lemma PassesChecks(lib: Library, proof: Proof, now: int)
    requires lib.trim(proof.challenge) != "" && lib.trim(proof.nonce) != ""
    requires Parse(lib, proof.challenge).Some? && Parse(lib, proof.challenge).value.expiresAt > now
    requires ParseNonce(lib, proof.nonce).Some? && Solved(lib, proof, Parse(lib, proof.challenge).value.difficultyBits)
    ensures Check(lib, proof, now).Accepted?
  {
  }

  lemma ToyTrims(expiry: string)
    ensures TOY.trim(ToyProof(expiry).challenge) != "" && TOY.trim(ToyProof(expiry).nonce) != ""
  {
    assert ToyProof(expiry).challenge == "v1" + "." + Join([expiry, "1", "", ""]);
  }

  lemma ToySolves(proof: Proof)
    requires proof.nonce == "0"
    ensures ParseNonce(TOY, proof.nonce).Some? && Solved(TOY, proof, 1)
  {
    assert ParseNonce(TOY, "0") == Some(Decimal("0"));
    ZeroPrefix(ProofDigest(TOY, proof), 32);
    assert ProofDigest(TOY, proof)[32..] == [];
  }

  lemma ToyHashesDiffer()
    ensures TOY.hash(Join(["v1", "a", "1", ""])) != TOY.hash(Join(["v1", "b", "1", ""]))
  {
    SplitJoin(["v1", "a", "1", ""]);
    SplitJoin(["v1", "b", "1", ""]);
    assert ["v1", "a", "1", ""][1] != ["v1", "b", "1", ""][1];
    var h1, h2 := TOY.hash(Join(["v1", "a", "1", ""])), TOY.hash(Join(["v1", "b", "1", ""]));
    assert h1[0] == 0 && h2[0] == 1;
  }

  /** One such run: the same challenge is accepted at 50 s and, read late, at 60 s, after another one at 150 s. */
  lemma AcceptedTwiceExample(p: Proof, q: Proof, t1: int, t2: int, t3: int)
    requires p == ToyProof("a") && q == ToyProof("b") && t1 == 50 * SECOND && t2 == 150 * SECOND && t3 == 60 * SECOND
    ensures var subs := [Submission(p, t1), Submission(q, t2), Submission(p, t3)];
            VerdictAt(TOY, New(2, t1), subs, 0).Accepted? && VerdictAt(TOY, New(2, t1), subs, 2).Accepted?
  {
    ToyAccepts("a", t1);
    ToyAccepts("b", t2);
    ToyAccepts("a", t3);
    ToyHashesDiffer();
    ToyParses("a");
    ToyParses("b");
    ClockGoingBackAcceptsTwice(TOY, p, q, t1, t2, t3, 2);
  }
}
