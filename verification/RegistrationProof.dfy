/**
 What a registration proof has to be, said without the code that checks it: the shape of a genuine
 token, the number a nonce stands for, and the digest it must give. Every verdict is decided by these
 and the replay table, and a challenge that was issued is accepted from whoever solves it in time.
 */
module RegistrationProof {
  import opened Basics
  import opened LeadingZeros
  import opened ProofOfWork

  // ---------- tokens ----------

  /** The four parts of a token after its version. */
  datatype Fields = Fields(expires: string, bits: string, random: string, signature: string)

  function Payload(f: Fields): string {
    "v1" + "." + f.expires + "." + f.bits + "." + f.random
  }

  predicate Dotless(s: string) {
    '.' !in s
  }

  /** The token has this form, and its signature is that of everything before it. */
  predicate Genuine(lib: Library, token: string, f: Fields) {
    && token == Payload(f) + "." + f.signature
    && Dotless(f.expires) && Dotless(f.bits) && Dotless(f.random) && Dotless(f.signature)
    && lib.parseInt(f.expires).Some? && lib.decode(f.random).Some?
    && lib.parseInt(f.bits).Some? && 1 <= lib.parseInt(f.bits).value <= 32
    && lib.decode(f.signature) == Some(lib.sign(Payload(f)))
  }

  function ExpiresAt(lib: Library, f: Fields): int
    requires lib.parseInt(f.expires).Some?
  {
    lib.parseInt(f.expires).value * 1_000_000_000
  }

  function Bits(lib: Library, f: Fields): nat
    requires lib.parseInt(f.bits).Some? && 1 <= lib.parseInt(f.bits).value <= 32
  {
    lib.parseInt(f.bits).value
  }

  lemma {:induction false} JoinSplit(s: string)
    ensures Join(Split(s)) == s
  {
    if s != "" {
      JoinSplit(s[1..]);
      var rest := Split(s[1..]);
      if s[0] == '.' {
        assert ([""] + rest)[1..] == rest;
        assert "" + "." + s[1..] == s;
      } else {
        JoinFirst(s[0], rest);
        assert [s[0]] + s[1..] == s;
      }
    }
  }

  lemma JoinFirst(c: char, parts: seq<string>)
    requires parts != []
    ensures Join([[c] + parts[0]] + parts[1..]) == [c] + Join(parts)
  {
    var longer := [[c] + parts[0]] + parts[1..];
    if |parts| > 1 {
      assert longer[1..] == parts[1..];
      assert [c] + parts[0] + "." + Join(parts[1..]) == [c] + (parts[0] + "." + Join(parts[1..]));
    }
  }

  function Parts(f: Fields): seq<string> {
    ["v1", f.expires, f.bits, f.random, f.signature]
  }

  lemma JoinParts(f: Fields)
    ensures Join(Parts(f)[..4]) == Payload(f)
    ensures Join(Parts(f)) == Payload(f) + "." + f.signature
  {
    var p := Parts(f);
    assert p[..4] == ["v1", f.expires, f.bits, f.random];
    assert p[..4][1..] == [f.expires, f.bits, f.random] && p[1..] == [f.expires, f.bits, f.random, f.signature];
    JoinTwo(f.bits, f.random);
    JoinThree(f.bits, f.random, f.signature);
    assert Join([f.expires, f.bits, f.random]) == f.expires + "." + Join([f.bits, f.random]) by {
      assert [f.expires, f.bits, f.random][1..] == [f.bits, f.random];
    }
    assert Join(p[1..]) == f.expires + "." + Join([f.bits, f.random, f.signature]) by {
      assert p[1..][1..] == [f.bits, f.random, f.signature];
    }
    assert Join(p[..4]) == "v1" + "." + (f.expires + "." + (f.bits + "." + f.random));
    assert Join(p) == "v1" + "." + (f.expires + "." + (f.bits + "." + (f.random + "." + f.signature)));
  }

  lemma JoinTwo(a: string, b: string)
    ensures Join([a, b]) == a + "." + b
  {
    assert [a, b][1..] == [b];
  }

  lemma JoinThree(a: string, b: string, c: string)
    ensures Join([a, b, c]) == a + "." + (b + "." + c)
  {
    assert [a, b, c][1..] == [b, c];
    JoinTwo(b, c);
  }

  /** A genuine token is parsed, to its own fields. */
  lemma GenuineParses(lib: Library, token: string, f: Fields)
    requires Genuine(lib, token, f)
    ensures Parse(lib, token) == Some(Challenge(ExpiresAt(lib, f), Bits(lib, f), Payload(f)))
  {
    JoinParts(f);
    assert NoDots(Parts(f));
    SplitJoin(Parts(f));
  }

  /** What is parsed is genuine. */
  lemma ParsedIsGenuine(lib: Library, token: string) returns (f: Fields)
    requires Parse(lib, token).Some?
    ensures Genuine(lib, token, f)
  {
    var parts := Split(token);
    f := Fields(parts[1], parts[2], parts[3], parts[4]);
    SplitHasNoDots(token);
    JoinSplit(token);
    assert parts == Parts(f);
    JoinParts(f);
  }

  // ---------- nonces ----------

  function Digit(d: int): char
    requires 0 <= d < 10
  {
    '0' + d as char
  }

  /** The usual decimal notation of a number. */
  function ToDigits(n: nat): string {
    if n < 10 then [Digit(n)] else ToDigits(n / 10) + [Digit(n % 10)]
  }

  predicate AllDigits(s: string) {
    forall i :: 0 <= i < |s| ==> '0' <= s[i] <= '9'
  }

  lemma {:induction false} DecimalOfDigits(n: nat)
    ensures AllDigits(ToDigits(n)) && Decimal(ToDigits(n)) == n
  {
    if n >= 10 {
      DecimalOfDigits(n / 10);
      assert ToDigits(n)[..|ToDigits(n)| - 1] == ToDigits(n / 10);
    } else {
      assert ToDigits(n)[..0] == "";
    }
  }

  function Zeros(k: nat): string {
    seq(k, _ => '0')
  }

  lemma OneMoreDigit(front: nat, d: int)
    requires 0 <= d < 10
    ensures ToDigits(10 * front + d) == if front == 0 then [Digit(d)] else ToDigits(front) + [Digit(d)]
  {
    if front != 0 {
      assert (10 * front + d) / 10 == front && (10 * front + d) % 10 == d;
    }
  }

  /** One digit more after the notation of a number, with its leading zeros. */
  lemma ExtendNotation(front: string, k: nat, v: nat, d: int) returns (k': nat)
    requires front == Zeros(k) + ToDigits(v) && 0 <= d < 10
    ensures front + [Digit(d)] == Zeros(k') + ToDigits(10 * v + d)
  {
    OneMoreDigit(v, d);
    k' := if v == 0 then k + 1 else k;
  }

  lemma LastDigit(s: string) returns (front: string, d: int)
    requires s != "" && AllDigits(s)
    ensures 0 <= d < 10 && s == front + [Digit(d)] && AllDigits(front)
    ensures Decimal(s) == 10 * Decimal(front) + d
  {
    front := s[..|s| - 1];
    d := s[|s| - 1] as int - '0' as int;
  }

  /** A string of digits is the notation of its value, after leading zeros. */
  lemma {:induction false} DigitsOfDecimal(s: string) returns (k: nat)
    requires s != "" && AllDigits(s)
    ensures Decimal(s) >= 0 && s == Zeros(k) + ToDigits(Decimal(s))
    decreases |s|
  {
    var front, d := LastDigit(s);
    if front == "" {
      OneMoreDigit(0, d);
      k := 0;
    } else {
      var before := DigitsOfDecimal(front);
      k := ExtendNotation(front, before, Decimal(front), d);
    }
  }

  /** One to twenty digits, after trimming, for a number that fits in 64 bits. */
  predicate NonceIs(lib: Library, raw: string, n: int) {
    var s := lib.trim(raw);
    1 <= |s| <= 20 && AllDigits(s) && n == Decimal(s) && n < 0x1_0000_0000_0000_0000
  }

  lemma NonceParses(lib: Library, raw: string, n: int)
    ensures NonceIs(lib, raw, n) <==> ParseNonce(lib, raw) == Some(n)
  {
  }

  // ---------- verdicts ----------

  predicate Blank(lib: Library, proof: Proof) {
    lib.trim(proof.challenge) == "" || lib.trim(proof.nonce) == ""
  }

  /** The nonce stands for n, and n makes the digest small enough. */
  predicate Solves(lib: Library, proof: Proof, n: int, bits: nat)
    requires bits <= 256
  {
    NonceIs(lib, proof.nonce, n) && Value(lib.digest(proof.challenge, proof.username, proof.inviteCode, n)) < Pow2(256 - bits)
  }

  predicate Passed(r: Outcome) {
    r.Accepted? || r.Replayed? || r.Saturated?
  }

  /** The table still holds the key once what is due to be forgotten is. */
  predicate Remembered(t: Table, key: Digest, now: int) {
    key in t.used && (t.used[key] > now || (now - t.lastCleanup < 60_000_000_000 && |t.used| < t.maximum))
  }

  /** How many keys of the table have not expired. */
  function Live(t: Table, now: int): nat {
    |set k | k in t.used && t.used[k] > now|
  }

  /** Each verdict on a genuine token, by its fields, the digest and the table. */
  ghost predicate VerdictIs(lib: Library, t: Table, proof: Proof, now: int, f: Fields, r: Outcome)
    requires Genuine(lib, proof.challenge, f)
  {
    var key := lib.hash(Payload(f));
    && (r.Expired? <==> !Blank(lib, proof) && ExpiresAt(lib, f) <= now)
    && (Passed(r) <==> !Blank(lib, proof) && ExpiresAt(lib, f) > now && exists n :: Solves(lib, proof, n, Bits(lib, f)))
    && (r.Replayed? <==> Passed(r) && Remembered(t, key, now))
    && (r.Saturated? <==> Passed(r) && !Remembered(t, key, now) && Live(t, now) >= t.maximum)
    && (r.Accepted? <==> Passed(r) && !Remembered(t, key, now) && Live(t, now) < t.maximum)
  }

  /** An accepted key is in the table with its expiry; every other key is there if it was and is still remembered. */
  ghost predicate UsedAfter(lib: Library, t: Table, proof: Proof, now: int, f: Fields, r: Outcome, used: map<Digest, int>)
    requires Genuine(lib, proof.challenge, f)
  {
    var key := lib.hash(Payload(f));
    && (r.Accepted? ==> key in used && used[key] == ExpiresAt(lib, f))
    && (forall k :: k in used && !(r.Accepted? && k == key) ==> k in t.used && used[k] == t.used[k])
    && (forall k :: k in t.used && !(r.Accepted? && k == key) ==> (k in used <==> !Passed(r) || Remembered(t, k, now)))
  }

  lemma CleanupRemembers(t: Table, now: int, key: Digest)
    ensures key in Cleanup(t, now).used <==> Remembered(t, key, now)
    ensures key in Cleanup(t, now).used ==> Cleanup(t, now).used[key] == t.used[key]
  {
  }

  lemma CleanupLeavesLive(t: Table, now: int)
    ensures |Cleanup(t, now).used| >= t.maximum <==> Live(t, now) >= t.maximum
  {
    assert Unexpired(t.used, now).Keys == set k | k in t.used && t.used[k] > now;
    assert |Unexpired(t.used, now)| == |Unexpired(t.used, now).Keys|;
    UnexpiredSize(t.used, now);
  }

  lemma ChecksMean(lib: Library, proof: Proof, now: int, f: Fields)
    requires Genuine(lib, proof.challenge, f)
    ensures var r := Check(lib, proof, now);
            && (r.Expired? <==> !Blank(lib, proof) && ExpiresAt(lib, f) <= now)
            && (r.Accepted? <==> !Blank(lib, proof) && ExpiresAt(lib, f) > now && exists n :: Solves(lib, proof, n, Bits(lib, f)))
            && !r.Replayed? && !r.Saturated?
  {
    GenuineParses(lib, proof.challenge, f);
    var parsed := ParseNonce(lib, proof.nonce);
    if parsed.Some? {
      NonceParses(lib, proof.nonce, parsed.value);
      assert Solved(lib, proof, Bits(lib, f)) <==> Solves(lib, proof, parsed.value, Bits(lib, f));
    }
    forall n | NonceIs(lib, proof.nonce, n) ensures parsed == Some(n) {
      NonceParses(lib, proof.nonce, n);
    }
  }

  lemma GenuineVerdict(lib: Library, t: Table, proof: Proof, now: int, f: Fields)
    requires Genuine(lib, proof.challenge, f)
    ensures var r := Verdict(lib, t, Submission(proof, now));
            VerdictIs(lib, t, proof, now, f, r) && UsedAfter(lib, t, proof, now, f, r, Submit(lib, t, Submission(proof, now)).used)
  {
    ChecksMean(lib, proof, now, f);
    GenuineParses(lib, proof.challenge, f);
    CleanupLeavesLive(t, now);
    forall k ensures k in Cleanup(t, now).used <==> Remembered(t, k, now)
             ensures k in Cleanup(t, now).used ==> Cleanup(t, now).used[k] == t.used[k]
    {
      CleanupRemembers(t, now, k);
    }
  }

  /** Every verdict: what it takes for a proof to be missing, invalid, expired, replayed, refused by a full table or accepted. */
  lemma VerdictMeans(lib: Library, t: Table, proof: Proof, now: int)
    ensures var r := Verdict(lib, t, Submission(proof, now));
            && (r.Required? <==> Blank(lib, proof))
            && (!Blank(lib, proof) && (forall f :: !Genuine(lib, proof.challenge, f)) ==> r.Invalid?)
            && (forall f :: Genuine(lib, proof.challenge, f) ==>
                  VerdictIs(lib, t, proof, now, f, r)
                  && UsedAfter(lib, t, proof, now, f, r, Submit(lib, t, Submission(proof, now)).used))
  {
    if Parse(lib, proof.challenge).Some? {
      var f := ParsedIsGenuine(lib, proof.challenge);
    }
    forall f | Genuine(lib, proof.challenge, f)
      ensures var r := Verdict(lib, t, Submission(proof, now));
              VerdictIs(lib, t, proof, now, f, r) && UsedAfter(lib, t, proof, now, f, r, Submit(lib, t, Submission(proof, now)).used)
    {
      GenuineVerdict(lib, t, proof, now, f);
    }
  }

  // ---------- issuing ----------

  /** The other direction of what the library parses. */
  datatype Printer = Printer(formatInt: int -> string, encode: seq<Byte> -> string)

  /** What is printed is parsed again, and contains no dot; trimming keeps digits and does not empty a token. */
  ghost predicate Inverse(lib: Library, printer: Printer) {
    && (forall n :: lib.parseInt(printer.formatInt(n)) == Some(n) && Dotless(printer.formatInt(n)))
    && (forall b :: lib.decode(printer.encode(b)) == Some(b) && Dotless(printer.encode(b)))
    && (forall s :: AllDigits(s) ==> lib.trim(s) == s)
    && (forall s :: 'v' in s ==> lib.trim(s) != "")
  }

  /** newRegistrationProofState */
  function Difficulty(configured: int): (bits: int)
    ensures 1 <= bits <= 32 && (1 <= configured <= 32 ==> bits == configured)
    ensures configured > 32 ==> bits == 32
    ensures configured <= 0 ==> bits == 20
  {
    if configured <= 0 then 20 else if configured > 32 then 32 else configured
  }

  /** The whole seconds of an instant, rounded down. */
  function Unix(t: int): (s: int)
    ensures s * 1_000_000_000 <= t < (s + 1) * 1_000_000_000
  {
    t / 1_000_000_000
  }

  /** issue, at a reading of the clock and with the random bytes it drew */
  function Issue(lib: Library, printer: Printer, bits: int, validity: int, random: seq<Byte>, now: int): string {
    var payload := Join([VERSION, printer.formatInt(Unix(now + validity)), printer.formatInt(bits), printer.encode(random)]);
    payload + "." + printer.encode(lib.sign(payload))
  }

  lemma IssuedIsGenuine(lib: Library, printer: Printer, bits: int, validity: int, random: seq<Byte>, now: int)
    requires Inverse(lib, printer) && 1 <= bits <= 32
    ensures var payload := Payload(Fields(printer.formatInt(Unix(now + validity)), printer.formatInt(bits), printer.encode(random), ""));
            Genuine(lib, Issue(lib, printer, bits, validity, random, now),
                    Fields(printer.formatInt(Unix(now + validity)), printer.formatInt(bits), printer.encode(random), printer.encode(lib.sign(payload))))
  {
    var f := Fields(printer.formatInt(Unix(now + validity)), printer.formatInt(bits), printer.encode(random), "");
    JoinParts(f);
    assert Parts(f)[..4] == [VERSION, f.expires, f.bits, f.random];
  }

  /**
   The round trip: a challenge issued with a difficulty, and the decimal notation of any 64-bit number whose digest is
   below the threshold of that difficulty, are accepted by a table that has room and does not hold the challenge, at
   every reading before the whole second in which the challenge expires.
   */
  lemma IssuedAndSolvedIsAccepted(lib: Library, printer: Printer, bits: int, validity: int, random: seq<Byte>, issuedAt: int,
                                  t: Table, n: nat, username: string, inviteCode: string, now: int)
    requires Inverse(lib, printer) && 1 <= bits <= 32 && n < 0x1_0000_0000_0000_0000
    requires var token := Issue(lib, printer, bits, validity, random, issuedAt);
             Value(lib.digest(token, username, inviteCode, n)) < Pow2(256 - bits)
    requires now < Unix(issuedAt + validity) * 1_000_000_000
    ensures var token := Issue(lib, printer, bits, validity, random, issuedAt);
            var r := Verdict(lib, t, Submission(Proof(token, ToDigits(n), username, inviteCode), now));
            var payload := Join([VERSION, printer.formatInt(Unix(issuedAt + validity)), printer.formatInt(bits), printer.encode(random)]);
            && Passed(r)
            && (r.Accepted? <==> !Remembered(t, lib.hash(payload), now) && Live(t, now) < t.maximum)
  {
    var token := Issue(lib, printer, bits, validity, random, issuedAt);
    var proof := Proof(token, ToDigits(n), username, inviteCode);
    var f := Fields(printer.formatInt(Unix(issuedAt + validity)), printer.formatInt(bits), printer.encode(random), "");
    JoinParts(f);
    assert Parts(f)[..4] == [VERSION, f.expires, f.bits, f.random];
    IssuedIsGenuine(lib, printer, bits, validity, random, issuedAt);
    var g := f.(signature := printer.encode(lib.sign(Payload(f))));
    assert Payload(g) == Payload(f);
    DecimalOfDigits(n);
    TwentyDigits();
    DigitsFit(n, 20);
    assert token[0] == 'v';
    assert Solves(lib, proof, n, Bits(lib, g));
    GenuineVerdict(lib, t, proof, now, g);
  }

  function Pow10(k: nat): int {
    if k == 0 then 1 else 10 * Pow10(k - 1)
  }

  lemma TwentyDigits()
    ensures 0x1_0000_0000_0000_0000 < Pow10(20)
  {
    assert Pow10(4) == 10_000;
    assert Pow10(8) == 100_000_000;
    assert Pow10(12) == 1_000_000_000_000;
    assert Pow10(16) == 10_000_000_000_000_000;
  }

  lemma {:induction false} DigitsFit(n: nat, k: nat)
    requires k > 0 && n < Pow10(k)
    ensures 1 <= |ToDigits(n)| <= k
  {
    if n >= 10 {
      DigitsFit(n / 10, k - 1);
    }
  }

  // ---------- the object ----------

  class RegistrationProofState {
    const lib: Library
    const maximum: nat
    var used: map<Digest, int>
    var lastCleanup: int
    var saturationLogged: bool

    ghost function View(): Table
      reads this
    {
      Table(used, lastCleanup, maximum, saturationLogged)
    }

    /** cleanupUsedChallengesLocked */
    method CleanupUsedChallenges(now: int)
      modifies this
      ensures View() == Cleanup(old(View()), now)
    {
      if now - lastCleanup < CLEANUP_INTERVAL && |used| < maximum {
        return;
      }
      lastCleanup := now;
      ghost var before := used;
      var todo := used.Keys;
      while todo != {}
        invariant todo <= used.Keys
        invariant forall k :: k in used <==> k in before && (k in todo || before[k] > now)
        invariant forall k :: k in used ==> used[k] == before[k]
        invariant lastCleanup == now && saturationLogged == old(saturationLogged)
      {
        var key :| key in todo;
        if used[key] <= now {
          used := used - {key};
        }
        todo := todo - {key};
      }
      assert used == Unexpired(before, now);
      if |used| < maximum {
        saturationLogged := false;
      }
    }

    /** verifyAndConsume; the difficulty is decided from the bytes of the digest. */
    method VerifyAndConsume(proof: Proof, now: int) returns (r: Outcome)
      modifies this
      ensures View() == Submit(lib, old(View()), Submission(proof, now))
      ensures r == Verdict(lib, old(View()), Submission(proof, now))
      ensures r.Required? <==> Blank(lib, proof)
      ensures !Blank(lib, proof) && (forall f :: !Genuine(lib, proof.challenge, f)) ==> r.Invalid?
      ensures forall f :: Genuine(lib, proof.challenge, f) ==> VerdictIs(lib, old(View()), proof, now, f, r)
      ensures forall f :: Genuine(lib, proof.challenge, f) ==> UsedAfter(lib, old(View()), proof, now, f, r, used)
    {
      VerdictMeans(lib, View(), proof, now);
      if lib.trim(proof.challenge) == "" || lib.trim(proof.nonce) == "" {
        return Required;
      }
      var parsed := Parse(lib, proof.challenge);
      if parsed.None? {
        return Invalid;
      }
      if parsed.value.expiresAt <= now {
        return Expired;
      }
      if ParseNonce(lib, proof.nonce).None? {
        return Invalid;
      }
      var solved := HasLeadingZeroBits(ProofDigest(lib, proof), parsed.value.difficultyBits);
      if !solved {
        return Invalid;
      }
      var key := lib.hash(parsed.value.payload);
      CleanupUsedChallenges(now);
      if key in used {
        return Replayed;
      }
      if |used| >= maximum {
        saturationLogged := true;
        return Saturated;
      }
      used := used[key := parsed.value.expiresAt];
      return Accepted;
    }
  }
}
