/**
 The token one node's relay presents to another: a time stamp in clear text and a keyed digest of
 it, accepted only within a window around the receiver's clock.
 */
module RelayToken {
  import opened Helpers

  datatype Verdict = Accepted | Unparsable | BadSecret | OutOfWindow

  const SCHEME := "HMAC-SHA256"
  const NONCE_TOLERANCE := 300

  /** The digest of the payload holding a secret and a nonce text, and Python's reading of an
      integer, both left open. */
  datatype Site = Site(digest: (string, string) -> string, parseInt: string -> Option<int>)

  /** Digests are hexadecimal, and an integer is read back from its decimal form. */
  ghost predicate Lawful(site: Site) {
    && (forall secret, nonce :: IsWord(site.digest(secret, nonce)))
    && (forall n: nat :: site.parseInt(Decimal(n)) == Some(n))
  }

  predicate IsWord(s: string) {
    forall i | 0 <= i < |s| :: s[i] != ' ' && s[i] != ':'
  }

  /** The parts of a text between separators. */
  function Split(s: string, sep: char): (parts: seq<string>)
    ensures |parts| >= 1
  {
    if s == [] then [""]
    else
      var rest := Split(s[1..], sep);
      if s[0] == sep then [""] + rest else [[s[0]] + rest[0]] + rest[1..]
  }

  function Construct(site: Site, secret: string, now: nat): string {
    SCHEME + " " + (Decimal(now) + ":" + site.digest(secret, Decimal(now)))
  }

  /** The nonce text and digest of a well-formed token. */
  function Parse(token: string): Option<(string, string)> {
    var parts := Split(token, ' ');
    if |parts| != 2 || parts[0] != SCHEME then None
    else
      var fields := Split(parts[1], ':');
      if |fields| != 2 then None else Some((fields[0], fields[1]))
  }

  function Abs(n: int): nat {
    if n < 0 then -n else n
  }

  function Verify(site: Site, secret: string, token: string, now: int): Verdict {
    match Parse(token)
    case None => Unparsable
    case Some((nonce, digest)) =>
      if site.digest(secret, nonce) != digest then BadSecret
      else
        match site.parseInt(nonce)
        case None => Unparsable
        case Some(t) => if Abs(now - t) > NONCE_TOLERANCE then OutOfWindow else Accepted
  }

  lemma {:induction false} SplitWord(s: string, sep: char)
    requires forall i | 0 <= i < |s| :: s[i] != sep
    ensures Split(s, sep) == [s]
    decreases |s|
  {
    if s != [] {
      SplitWord(s[1..], sep);
      assert [s[0]] + s[1..] == s;
    }
  }

  /** A separator between two texts splits them, if the first has none. */
  lemma {:induction false} SplitAt(a: string, b: string, sep: char)
    requires forall i | 0 <= i < |a| :: a[i] != sep
    ensures Split(a + [sep] + b, sep) == [a] + Split(b, sep)
    decreases |a|
  {
    var s := a + [sep] + b;
    if a == [] {
      assert s[1..] == b;
    } else {
      SplitAt(a[1..], b, sep);
      assert s[1..] == a[1..] + [sep] + b;
      assert [a[0]] + a[1..] == a;
    }
  }

  lemma {:induction false} DecimalIsWord(n: nat)
    ensures IsWord(Decimal(n))
    decreases n
  {
    if n >= 10 {
      DecimalIsWord(n / 10);
    }
  }

  lemma ConstructParses(site: Site, secret: string, now: nat)
    requires Lawful(site)
    ensures Parse(Construct(site, secret, now)) == Some((Decimal(now), site.digest(secret, Decimal(now))))
  {
    var nonce, digest := Decimal(now), site.digest(secret, Decimal(now));
    DecimalIsWord(now);
    assert IsWord(digest);
    var payload := nonce + ":" + digest;
    SplitAt(nonce, digest, ':');
    SplitWord(digest, ':');
    SplitAt(SCHEME, payload, ' ');
    SplitWord(payload, ' ');
  }

  /** A token is accepted by a holder of the same secret exactly within five minutes of its making,
      before or after. */
  lemma AcceptedInWindow(site: Site, secret: string, made: nat, now: int)
    requires Lawful(site)
    ensures Verify(site, secret, Construct(site, secret, made), now) == Accepted <==> Abs(now - made) <= NONCE_TOLERANCE
  {
    ConstructParses(site, secret, made);
  }

  /** Whatever is accepted carries the digest of the payload rebuilt from its own nonce text, and a
      nonce within the window. */
  lemma AcceptedIsAuthentic(site: Site, secret: string, token: string, now: int)
    requires Verify(site, secret, token, now) == Accepted
    ensures Parse(token).Some?
    ensures var (nonce, digest) := Parse(token).value;
            && digest == site.digest(secret, nonce)
            && site.parseInt(nonce).Some? && Abs(now - site.parseInt(nonce).value) <= NONCE_TOLERANCE
            && token == SCHEME + " " + (nonce + ":" + digest)
  {
    var parts := Split(token, ' ');
    SplitJoins(token, ' ');
    SplitJoins(parts[1], ':');
  }

  function Joined(parts: seq<string>, sep: char): string
    requires |parts| >= 1
  {
    if |parts| == 1 then parts[0] else parts[0] + [sep] + Joined(parts[1..], sep)
  }

  lemma {:induction false} SplitJoins(s: string, sep: char)
    ensures Joined(Split(s, sep), sep) == s
    decreases |s|
  {
    if s != [] {
      var rest := Split(s[1..], sep);
      SplitJoins(s[1..], sep);
      if s[0] == sep {
        assert ([""] + rest)[1..] == rest;
        assert Joined(Split(s, sep), sep) == "" + [sep] + s[1..];
      } else {
        PrependJoins(s[0], rest, sep);
      }
      assert s == [s[0]] + s[1..];
    }
  }

  lemma PrependJoins(c: char, parts: seq<string>, sep: char)
    requires |parts| >= 1
    ensures Joined([[c] + parts[0]] + parts[1..], sep) == [c] + Joined(parts, sep)
  {
  }

  /** A token made under one secret is refused by a holder of another whose digest of the same
      nonce differs. */
  lemma OtherSecretRefused(site: Site, secret: string, other: string, made: nat, now: int)
    requires Lawful(site) && site.digest(other, Decimal(made)) != site.digest(secret, Decimal(made))
    ensures Verify(site, other, Construct(site, secret, made), now) == BadSecret
  {
    ConstructParses(site, secret, made);
  }
}
