/** Single-use wallet challenges: issuing, pruning and verifying against the in-memory store. */
module WalletChallenges {
  import opened Outcomes
  import opened Sequences

  type Wallet = string

  datatype Challenge = Challenge(
    nonceHash: string, wallet: Wallet, message: string, requestHash: string, idempotencyKey: string, expiresAt: int)

  const LIFETIME: int := 5 * 60_000

  /** Challenges still stored after pruning at the given time. */
  function Pruned(stored: map<string, Challenge>, now: int): map<string, Challenge> {
    map k | k in stored && stored[k].expiresAt > now :: stored[k]
  }

  function OfWallet(stored: map<string, Challenge>, wallet: Wallet): set<string> {
    set k | k in stored && stored[k].wallet == wallet
  }

  /** The store after a save; a refused save still prunes. */
  function Saved(stored: map<string, Challenge>, c: Challenge, maxActive: nat, now: int): map<string, Challenge> {
    var left := Pruned(stored, now);
    if |OfWallet(left, c.wallet)| >= maxActive then left else left[c.nonceHash := c]
  }

  class MemoryChallengeStore {
    var challenges: map<string, Challenge>

    constructor ()
      ensures challenges == map[]
    {
      challenges := map[];
    }

    method SaveWalletChallenge(c: Challenge, maxActive: nat, now: int) returns (saved: bool)
      modifies this
      ensures challenges == Saved(old(challenges), c, maxActive, now)
      ensures saved <==> |OfWallet(Pruned(old(challenges), now), c.wallet)| < maxActive
    {
      ghost var before := challenges;
      var left := challenges.Keys;
      while left != {}
        invariant left <= before.Keys && challenges.Keys <= before.Keys
        invariant forall k :: k in challenges ==> challenges[k] == before[k]
        invariant forall k :: k in before ==> (k in challenges <==> k in left || before[k].expiresAt > now)
        decreases left
      {
        var key :| key in left;
        left := left - {key};
        if challenges[key].expiresAt <= now {
          challenges := challenges - {key};
        }
      }
      assert challenges == Pruned(before, now);
      var active := set k | k in challenges && challenges[k].wallet == c.wallet && challenges[k].expiresAt > now;
      assert active == OfWallet(Pruned(before, now), c.wallet);
      if |active| >= maxActive {
        return false;
      }
      challenges := challenges[c.nonceHash := c];
      return true;
    }

    method ConsumeWalletChallenge(nonceHash: string) returns (found: Option<Challenge>)
      modifies this
      ensures found == if nonceHash in old(challenges) then Some(old(challenges)[nonceHash]) else None
      ensures challenges == old(challenges) - {nonceHash}
    {
      found := if nonceHash in challenges then Some(challenges[nonceHash]) else None;
      challenges := challenges - {nonceHash};
    }
  }

  datatype Presented = Presented(
    wallet: Wallet, nonce: string, signedMessage: string, signature: string, requestHash: string,
    idempotencyKey: string)

  /** The checks made on a consumed challenge; the signature check is whatever the cryptography says. */
  predicate Verifies(c: Challenge, p: Presented, signed: (Wallet, string, string) -> bool, now: int) {
    && c.wallet == p.wallet && c.requestHash == p.requestHash && c.idempotencyKey == p.idempotencyKey
    && now <= c.expiresAt
    && p.signedMessage == c.message
    && signed(p.wallet, p.signedMessage, p.signature)
  }

  class WalletChallenges {
    const store: MemoryChallengeStore
    const maxActive: nat
    const hash: string -> string

    constructor (store: MemoryChallengeStore, maxActive: nat, hash: string -> string)
      ensures this.store == store && this.maxActive == maxActive && this.hash == hash
    {
      this.store, this.maxActive, this.hash := store, maxActive, hash;
    }

    /** The challenge is stored under its nonce's hash and expires five minutes after issue. */
    method Issue(
      wallet: Wallet, requestHash: string, idempotencyKey: string, nonce: string, message: string, now: int,
      savedAt: int)
      returns (issued: bool)
      modifies store
      ensures var c := Challenge(hash(nonce), wallet, message, requestHash, idempotencyKey, now + LIFETIME);
        && store.challenges == Saved(old(store.challenges), c, maxActive, savedAt)
        && (issued <==> |OfWallet(Pruned(old(store.challenges), savedAt), wallet)| < maxActive)
        && (issued ==> hash(nonce) in store.challenges && store.challenges[hash(nonce)].expiresAt == now + 300_000)
    {
      var c := Challenge(hash(nonce), wallet, message, requestHash, idempotencyKey, now + LIFETIME);
      issued := store.SaveWalletChallenge(c, maxActive, savedAt);
    }

    /** Consumes first, checks second: whatever the outcome, the nonce is gone. */
    method Verify(p: Presented, signed: (Wallet, string, string) -> bool, now: int) returns (ok: bool)
      modifies store
      ensures store.challenges == old(store.challenges) - {hash(p.nonce)}
      ensures ok <==>
        hash(p.nonce) in old(store.challenges) && Verifies(old(store.challenges)[hash(p.nonce)], p, signed, now)
    {
      var found := store.ConsumeWalletChallenge(hash(p.nonce));
      if found.None? {
        return false;
      }
      var c := found.value;
      if c.wallet != p.wallet || c.requestHash != p.requestHash || c.idempotencyKey != p.idempotencyKey
         || c.expiresAt < now
      {
        return false;
      }
      if p.signedMessage != c.message {
        return false;
      }
      return signed(p.wallet, p.signedMessage, p.signature);
    }
  }

  // ---------------------------------------------------------------- whole runs

  datatype Event =
    | IssueEvent(c: Challenge, savedAt: int)
    | VerifyEvent(nonceHash: string, p: Presented, accepts: bool, now: int)

  /** Stored challenges, every challenge ever issued in order, and every one that was accepted. */
  datatype World = World(stored: map<string, Challenge>, issued: seq<Challenge>, accepted: seq<Challenge>)

  function Step(maxActive: nat, w: World, e: Event): World {
    match e
    case IssueEvent(c, savedAt) =>
      w.(stored := Saved(w.stored, c, maxActive, savedAt),
         issued := if |OfWallet(Pruned(w.stored, savedAt), c.wallet)| >= maxActive then w.issued else w.issued + [c])
    case VerifyEvent(nonceHash, p, accepts, now) =>
      w.(stored := w.stored - {nonceHash},
         accepted :=
           if nonceHash in w.stored && Verifies(w.stored[nonceHash], p, (a, b, c) => accepts, now)
           then w.accepted + [w.stored[nonceHash]] else w.accepted)
  }

  function Run(maxActive: nat, events: seq<Event>): World {
    if events == [] then World(map[], [], [])
    else Step(maxActive, Run(maxActive, events[..|events| - 1]), events[|events| - 1])
  }

  function Times(cs: seq<Challenge>, nonceHash: string): nat {
    if cs == [] then 0
    else Times(cs[..|cs| - 1], nonceHash) + (if cs[|cs| - 1].nonceHash == nonceHash then 1 else 0)
  }

  lemma TimesAppend(cs: seq<Challenge>, c: Challenge, nonceHash: string)
    ensures Times(cs + [c], nonceHash) == Times(cs, nonceHash) + (if c.nonceHash == nonceHash then 1 else 0)
  {
    assert (cs + [c])[..|cs|] == cs;
  }

  predicate StoredOk(w: World) {
    && (forall k :: k in w.stored ==> w.stored[k].nonceHash == k && w.stored[k] in w.issued)
    && (forall c :: c in w.accepted ==> c in w.issued)
  }

  /** A nonce has been accepted, or is still stored, at most as often as it was issued. */
  predicate Accounted(w: World, nonceHash: string) {
    && StoredOk(w)
    && Times(w.accepted, nonceHash) + (if nonceHash in w.stored then 1 else 0) <= Times(w.issued, nonceHash)
  }

  lemma IssueAccounted(maxActive: nat, w: World, c: Challenge, savedAt: int, nonceHash: string)
    requires Accounted(w, nonceHash)
    ensures Accounted(Step(maxActive, w, IssueEvent(c, savedAt)), nonceHash)
  {
    TimesAppend(w.issued, c, nonceHash);
  }

  lemma VerifyAccounted(
    maxActive: nat, w: World, k: string, p: Presented, accepts: bool, now: int, nonceHash: string)
    requires Accounted(w, nonceHash)
    ensures Accounted(Step(maxActive, w, VerifyEvent(k, p, accepts, now)), nonceHash)
  {
    if k in w.stored {
      TimesAppend(w.accepted, w.stored[k], nonceHash);
    }
  }

  /**
    Verify returns true for a nonce at most as often as it was issued, so exactly once at most when
    nonces do not repeat; and what it accepts was issued.
   */
  lemma {:induction false} AcceptedAtMostOnce(maxActive: nat, events: seq<Event>, nonceHash: string)
    ensures var w := Run(maxActive, events);
      && Times(w.accepted, nonceHash) <= Times(w.issued, nonceHash)
      && (forall c :: c in w.accepted ==> c in w.issued)
      && Accounted(w, nonceHash)
  {
    if events != [] {
      var w, e := Run(maxActive, events[..|events| - 1]), events[|events| - 1];
      AcceptedAtMostOnce(maxActive, events[..|events| - 1], nonceHash);
      match e
      case IssueEvent(c, savedAt) => IssueAccounted(maxActive, w, c, savedAt, nonceHash);
      case VerifyEvent(k, p, accepts, now) => VerifyAccounted(maxActive, w, k, p, accepts, now, nonceHash);
    }
  }

  /**
    Only the wallet, request, idempotency key and message a stored challenge was issued for are
    accepted, and not after its expiry.
   */
  lemma AcceptedMatchesIssue(maxActive: nat, events: seq<Event>, e: Event)
    requires e.VerifyEvent?
    ensures var w, t := Run(maxActive, events), Step(maxActive, Run(maxActive, events), e);
      t.accepted != w.accepted ==>
        && |t.accepted| == |w.accepted| + 1
        && var c := t.accepted[|w.accepted|];
           && c in w.issued && c.nonceHash == e.nonceHash && e.nonceHash !in t.stored
           && c.wallet == e.p.wallet && c.requestHash == e.p.requestHash && c.idempotencyKey == e.p.idempotencyKey
           && c.message == e.p.signedMessage && e.now <= c.expiresAt
  {
    AcceptedAtMostOnce(maxActive, events, e.nonceHash);
  }

  /**
    No wallet ever has more than the maximum of stored challenges, expired ones included, whatever the
    clocks say; so no more than the maximum are unexpired.
   */
  lemma {:induction false} WalletBounded(maxActive: nat, events: seq<Event>, wallet: Wallet, now: int)
    ensures var w := Run(maxActive, events);
      |OfWallet(Pruned(w.stored, now), wallet)| <= |OfWallet(w.stored, wallet)| <= maxActive
  {
    var w := Run(maxActive, events);
    if events != [] {
      var before, e := Run(maxActive, events[..|events| - 1]), events[|events| - 1];
      WalletBounded(maxActive, events[..|events| - 1], wallet, now);
      match e
      case IssueEvent(c, savedAt) =>
        var left := Pruned(before.stored, savedAt);
        SubsetSize(OfWallet(left, wallet), OfWallet(before.stored, wallet));
        if |OfWallet(left, c.wallet)| < maxActive {
          if wallet == c.wallet {
            assert OfWallet(w.stored, wallet) == OfWallet(left, wallet) + {c.nonceHash};
          } else {
            SubsetSize(OfWallet(w.stored, wallet), OfWallet(left, wallet));
          }
        }
      case VerifyEvent(_, _, _, _) =>
        SubsetSize(OfWallet(w.stored, wallet), OfWallet(before.stored, wallet));
    }
    SubsetSize(OfWallet(Pruned(w.stored, now), wallet), OfWallet(w.stored, wallet));
  }

  // ---------------------------------------------------------------- what saving and verifying do

  /** Exactly what a save leaves stored: the unexpired challenges, and the new one if its wallet has room. */
  lemma SavedExactly(stored: map<string, Challenge>, c: Challenge, maxActive: nat, now: int, k: string)
    ensures var active := set x | x in stored && now < stored[x].expiresAt && stored[x].wallet == c.wallet;
      var t := Saved(stored, c, maxActive, now); var issued := |active| < maxActive;
      && (k in t <==> (k in stored && now < stored[k].expiresAt) || (issued && k == c.nonceHash))
      && (k in t ==> t[k] == if issued && k == c.nonceHash then c else stored[k])
  {
    assert OfWallet(Pruned(stored, now), c.wallet)
        == set x | x in stored && now < stored[x].expiresAt && stored[x].wallet == c.wallet;
  }

  /** A presented challenge is accepted exactly if it is the stored one, in time, and signed by its wallet. */
  lemma AcceptedExactly(w: World, maxActive: nat, nonceHash: string, p: Presented, accepts: bool, now: int)
    ensures var t := Step(maxActive, w, VerifyEvent(nonceHash, p, accepts, now));
      && t.stored == w.stored - {nonceHash}
      && t.accepted == if nonceHash in w.stored && accepts && now <= w.stored[nonceHash].expiresAt
             && w.stored[nonceHash].wallet == p.wallet && w.stored[nonceHash].message == p.signedMessage
             && w.stored[nonceHash].requestHash == p.requestHash
             && w.stored[nonceHash].idempotencyKey == p.idempotencyKey
           then w.accepted + [w.stored[nonceHash]] else w.accepted
  {
  }

  /** The check is the signature check of that wallet over that message, and nothing can stand in for it. */
  lemma SignatureDecides(c: Challenge, p: Presented, signed: (Wallet, string, string) -> bool, now: int)
    requires p.wallet == c.wallet && p.requestHash == c.requestHash && p.idempotencyKey == c.idempotencyKey
    requires p.signedMessage == c.message && now <= c.expiresAt
    ensures Verifies(c, p, signed, now) <==> signed(c.wallet, c.message, p.signature)
  {
  }

  /** A challenge that was issued, and presented in time with its own data and a good signature, is accepted. */
  lemma IssuedIsAccepted(maxActive: nat, w: World, c: Challenge, savedAt: int, now: int, signature: string)
    requires |OfWallet(Pruned(w.stored, savedAt), c.wallet)| < maxActive && now <= c.expiresAt
    ensures var issued := Step(maxActive, w, IssueEvent(c, savedAt));
      var p := Presented(c.wallet, "", c.message, signature, c.requestHash, c.idempotencyKey);
      var t := Step(maxActive, issued, VerifyEvent(c.nonceHash, p, true, now));
      issued.issued == w.issued + [c] && t.accepted == w.accepted + [c] && c.nonceHash !in t.stored
  {
  }
}
