/**
 Passkey challenges and signature counters (app/repositories/passkeys.py).
 */
module Passkeys {
  import opened Wrappers

  datatype Ceremony = Registration | Authentication

  datatype Challenge = Challenge(id: nat, ceremony: Ceremony, user: Option<nat>, expires: int)

  type Rows = map<string, Challenge>

  datatype Table = Table(rows: Rows, nextId: nat)

  datatype Stored = StoredAs(id: nat) | Duplicate | Invalid

  datatype Consumed = Bound(user: Option<nat>) | Unknown

  // ---------------------------------------------------------------- the three operations

  /** `store_challenge`; `normalize` is the base64url check of a challenge text. */
  function Store(t: Table, challenge: string, ceremony: Ceremony, user: Option<nat>, expires: int,
      normalize: string -> Option<string>): (Table, Stored) {
    if ceremony == Registration && user.None? then (t, Invalid)
    else
      match normalize(challenge)
      case None => (t, Invalid)
      case Some(key) =>
        if key in t.rows then (t, Duplicate)
        else (Table(t.rows[key := Challenge(t.nextId, ceremony, user, expires)], t.nextId + 1), StoredAs(t.nextId))
  }

  predicate IsLive(c: Challenge, ceremony: Ceremony, now: int) {
    c.ceremony == ceremony && c.expires > now
  }

  /** `consume_challenge`. */
  function Consume(rows: Rows, challenge: string, ceremony: Ceremony, now: int,
      normalize: string -> Option<string>): (Rows, Consumed) {
    match normalize(challenge)
    case None => (rows, Unknown)
    case Some(key) =>
      if key in rows && IsLive(rows[key], ceremony, now) then (rows - {key}, Bound(rows[key].user)) else (rows, Unknown)
  }

  /** `purge_expired_challenges`. */
  function Purge(rows: Rows, now: int): Rows {
    map k | k in rows && rows[k].expires > now :: rows[k]
  }

  /** Exactly when a challenge is stored, and why it is not. */
  lemma StoreIs(t: Table, challenge: string, ceremony: Ceremony, user: Option<nat>, expires: int,
      normalize: string -> Option<string>)
    ensures var r := Store(t, challenge, ceremony, user, expires, normalize).1;
            && (r == Invalid <==> normalize(challenge) == None || (ceremony != Authentication && user == None))
            && (r == Duplicate <==>
              && (ceremony == Authentication || user != None)
              && exists key :: key in t.rows && normalize(challenge) == Some(key))
            && (r.StoredAs? ==> r.id == t.nextId)
  {
    var r := Store(t, challenge, ceremony, user, expires, normalize).1;
    assert r == Duplicate ==> normalize(challenge) == Some(normalize(challenge).value);
  }

  /** A challenge is accepted exactly if it is stored for the ceremony and not expired. */
  lemma ConsumeIs(rows: Rows, challenge: string, ceremony: Ceremony, now: int, normalize: string -> Option<string>,
      user: Option<nat>)
    ensures Consume(rows, challenge, ceremony, now, normalize).1 == Bound(user) <==>
        exists key ::
          && key in rows && normalize(challenge) == Some(key)
          && rows[key].ceremony == ceremony && now < rows[key].expires && rows[key].user == user
  {
    var key := normalize(challenge);
    assert key.Some? ==> key == Some(key.value);
  }

  class ChallengeTable {
    var rows: Rows
    var nextId: nat
    const normalize: string -> Option<string>

    constructor (normalize: string -> Option<string>)
      ensures rows == map[] && nextId == 0 && this.normalize == normalize
    {
      rows, nextId := map[], 0;
      this.normalize := normalize;
    }

    method StoreChallenge(challenge: string, ceremony: Ceremony, user: Option<nat>, expires: int) returns (r: Stored)
      modifies this
      ensures (Table(rows, nextId), r) == Store(old(Table(rows, nextId)), challenge, ceremony, user, expires, normalize)
    {
      if ceremony == Registration && user.None? {
        return Invalid;
      }
      var key := normalize(challenge);
      if key.None? {
        return Invalid;
      }
      if key.value in rows {
        return Duplicate;
      }
      rows, nextId, r := rows[key.value := Challenge(nextId, ceremony, user, expires)], nextId + 1, StoredAs(nextId);
    }

    method ConsumeChallenge(challenge: string, ceremony: Ceremony, now: int) returns (r: Consumed)
      modifies this`rows
      ensures (rows, r) == Consume(old(rows), challenge, ceremony, now, normalize)
    {
      var key := normalize(challenge);
      if key.None? || key.value !in rows || !IsLive(rows[key.value], ceremony, now) {
        return Unknown;
      }
      r := Bound(rows[key.value].user);
      rows := rows - {key.value};
    }

    method PurgeExpired(now: int) returns (purged: nat)
      modifies this`rows
      ensures rows == Purge(old(rows), now)
      ensures purged == |old(rows)| - |rows|
    {
      var kept := Purge(rows, now);
      assert kept.Keys <= rows.Keys;
      FewerKeys(kept, rows);
      purged := |rows| - |kept|;
      rows := kept;
    }
  }

  lemma FewerKeys(a: Rows, b: Rows)
    requires a.Keys <= b.Keys
    ensures |a| <= |b|
  {
    SubsetSize(a.Keys, b.Keys);
    assert |a| == |a.Keys| && |b| == |b.Keys|;
  }

  lemma SubsetSize<T>(a: set<T>, b: set<T>)
    requires a <= b
    ensures |a| <= |b|
  {
    assert b == a + (b - a);
  }

  // ---------------------------------------------------------------- each issuance is consumed at most once

  datatype Op =
    | Issue(challenge: string, ceremony: Ceremony, user: Option<nat>, expires: int)
    | Redeem(challenge: string, ceremony: Ceremony, now: int)
    | Sweep(now: int)

  /** A successful consumption: which issuance, in which ceremony, when, and the user it returned. */
  datatype Use = Use(id: nat, ceremony: Ceremony, now: int, user: Option<nat>)

  /** The table with the record of all issuances and all uses. */
  datatype Book = Book(t: Table, issued: seq<Challenge>, uses: seq<Use>)

  function Act(b: Book, op: Op, normalize: string -> Option<string>): Book {
    match op
    case Issue(challenge, ceremony, user, expires) =>
      var r := Store(b.t, challenge, ceremony, user, expires, normalize);
      Book(r.0, if r.1.StoredAs? then b.issued + [Challenge(r.1.id, ceremony, user, expires)] else b.issued, b.uses)
    case Redeem(challenge, ceremony, now) =>
      var r := Consume(b.t.rows, challenge, ceremony, now, normalize);
      var key := normalize(challenge);
      Book(b.t.(rows := r.0), b.issued,
           if r.1.Bound? && key.Some? && key.value in b.t.rows
             then b.uses + [Use(b.t.rows[key.value].id, ceremony, now, r.1.user)] else b.uses)
    case Sweep(now) => b.(t := b.t.(rows := Purge(b.t.rows, now)))
  }

  /** Uses are of distinct issuances, each in its ceremony, before expiry, for its user. */
  predicate Proper(b: Book) {
    && |b.issued| == b.t.nextId
    && (forall k :: 0 <= k < |b.issued| ==> b.issued[k].id == k)
    && (forall i, j :: 0 <= i < j < |b.uses| ==> b.uses[i].id != b.uses[j].id)
    && (forall i :: 0 <= i < |b.uses| ==> ProperUse(b.uses[i], b.issued))
  }

  predicate ProperUse(u: Use, issued: seq<Challenge>) {
    u.id < |issued| && issued[u.id].ceremony == u.ceremony && u.now < issued[u.id].expires
        && issued[u.id].user == u.user
  }

  /** What is still in the table was issued and not used. */
  predicate Pending(b: Book) {
    && (forall k :: k in b.t.rows ==> b.t.rows[k].id < |b.issued| && b.t.rows[k] == b.issued[b.t.rows[k].id])
    && (forall k, l :: k in b.t.rows && l in b.t.rows && k != l ==> b.t.rows[k].id != b.t.rows[l].id)
    && (forall k, i :: k in b.t.rows && 0 <= i < |b.uses| ==> b.t.rows[k].id != b.uses[i].id)
  }

  predicate Sound(b: Book) {
    Proper(b) && Pending(b)
  }

  lemma ActKeepsSound(b: Book, op: Op, normalize: string -> Option<string>)
    requires Sound(b)
    ensures Sound(Act(b, op, normalize))
  {
    hide ProperUse, Purge, Store, Consume;
    match op
    case Issue(challenge, ceremony, user, expires) =>
      StoreCases(b.t, challenge, ceremony, user, expires, normalize);
      var r := Store(b.t, challenge, ceremony, user, expires, normalize);
      if r.1.StoredAs? {
        IssueKeeps(b, normalize(challenge).value, Challenge(b.t.nextId, ceremony, user, expires));
      }
    case Redeem(challenge, ceremony, now) =>
      ConsumeCases(b.t.rows, challenge, ceremony, now, normalize);
      if Consume(b.t.rows, challenge, ceremony, now, normalize).1.Bound? {
        RedeemKeeps(b, normalize(challenge).value, ceremony, now);
      }
    case Sweep(now) =>
      SweepKeeps(b, now);
  }

  lemma StoreCases(t: Table, challenge: string, ceremony: Ceremony, user: Option<nat>, expires: int,
      normalize: string -> Option<string>)
    ensures var r := Store(t, challenge, ceremony, user, expires, normalize);
            if r.1.StoredAs? then
              && normalize(challenge).Some? && normalize(challenge).value !in t.rows && r.1 == StoredAs(t.nextId)
              && r.0 == Table(t.rows[normalize(challenge).value := Challenge(t.nextId, ceremony, user, expires)],
                t.nextId + 1)
            else r.0 == t
  {
  }

  lemma ConsumeCases(rows: Rows, challenge: string, ceremony: Ceremony, now: int, normalize: string -> Option<string>)
    ensures var r, key := Consume(rows, challenge, ceremony, now, normalize), normalize(challenge);
            if r.1.Bound? then
              && key.Some? && key.value in rows && IsLive(rows[key.value], ceremony, now)
              && r == (rows - {key.value}, Bound(rows[key.value].user))
            else r.0 == rows
  {
  }

  lemma IssueKeeps(b: Book, key: string, c: Challenge)
    requires Sound(b) && key !in b.t.rows && c.id == b.t.nextId
    ensures Sound(Book(Table(b.t.rows[key := c], b.t.nextId + 1), b.issued + [c], b.uses))
  {
    var next := b.issued + [c];
    forall i | 0 <= i < |b.uses| ensures ProperUse(b.uses[i], next) && b.uses[i].id != c.id {
      assert ProperUse(b.uses[i], b.issued);
    }
  }

  lemma RedeemKeeps(b: Book, key: string, ceremony: Ceremony, now: int)
    requires Sound(b) && key in b.t.rows && IsLive(b.t.rows[key], ceremony, now)
    ensures var c := b.t.rows[key];
            Sound(Book(b.t.(rows := b.t.rows - {key}), b.issued, b.uses + [Use(c.id, ceremony, now, c.user)]))
  {
    var c := b.t.rows[key];
    assert ProperUse(Use(c.id, ceremony, now, c.user), b.issued);
    hide ProperUse;
  }

  lemma SweepKeeps(b: Book, now: int)
    requires Sound(b)
    ensures Sound(b.(t := b.t.(rows := Purge(b.t.rows, now))))
  {
    hide ProperUse;
  }

  function Run(b: Book, ops: seq<Op>, normalize: string -> Option<string>): Book
    decreases |ops|
  {
    if ops == [] then b else Run(Act(b, ops[0], normalize), ops[1..], normalize)
  }

  lemma {:induction false} RunLast(b: Book, ops: seq<Op>, op: Op, normalize: string -> Option<string>)
    ensures Run(b, ops + [op], normalize) == Act(Run(b, ops, normalize), op, normalize)
    ensures Run(b, [], normalize) == b
    decreases |ops|
  {
    hide Act;
    if ops == [] {
      assert [] + [op] == [op] && [op][1..] == [];
    } else {
      assert (ops + [op])[1..] == ops[1..] + [op];
      RunLast(Act(b, ops[0], normalize), ops[1..], op, normalize);
    }
  }

  /** Every accepted consumption is recorded, with the issuance it used, and nothing else is. */
  lemma UsesAre(b: Book, op: Op, normalize: string -> Option<string>)
    ensures Act(b, op, normalize).uses ==
        match op
        case Redeem(challenge, ceremony, now) =>
          (match Consume(b.t.rows, challenge, ceremony, now, normalize).1
           case Bound(user) =>
             b.uses + (match normalize(challenge)
                       case Some(key) => [Use(if key in b.t.rows then b.t.rows[key].id else 0, ceremony, now, user)]
                       case None => [])
           case Unknown => b.uses)
        case _ => b.uses
  {
    if op.Redeem? {
      ConsumeCases(b.t.rows, op.challenge, op.ceremony, op.now, normalize);
      hide Consume;
    }
  }

  /** In every run each issuance is consumed at most once, only in its ceremony and before expiry. */
  lemma {:induction false} RunKeepsSound(b: Book, ops: seq<Op>, normalize: string -> Option<string>)
    requires Sound(b)
    ensures Sound(Run(b, ops, normalize))
    decreases |ops|
  {
    hide Sound, Act;
    if ops != [] {
      ActKeepsSound(b, ops[0], normalize);
      RunKeepsSound(Act(b, ops[0], normalize), ops[1..], normalize);
    }
  }

  predicate NotIssued(ops: seq<Op>, key: string, normalize: string -> Option<string>) {
    forall k :: 0 <= k < |ops| && ops[k].Issue? ==> normalize(ops[k].challenge) != Some(key)
  }

  lemma ActKeepsAbsent(b: Book, op: Op, key: string, normalize: string -> Option<string>)
    requires key !in b.t.rows && (op.Issue? ==> normalize(op.challenge) != Some(key))
    ensures key !in Act(b, op, normalize).t.rows
  {
    match op
    case Issue(challenge, ceremony, user, expires) => StoreCases(b.t, challenge, ceremony, user, expires, normalize);
    case Redeem(challenge, ceremony, now) => ConsumeCases(b.t.rows, challenge, ceremony, now, normalize);
    case Sweep(now) =>
  }

  lemma {:induction false} RunKeepsAbsent(b: Book, ops: seq<Op>, key: string, normalize: string -> Option<string>)
    requires key !in b.t.rows && NotIssued(ops, key, normalize)
    ensures key !in Run(b, ops, normalize).t.rows
    decreases |ops|
  {
    hide Act;
    if ops != [] {
      ActKeepsAbsent(b, ops[0], key, normalize);
      RunKeepsAbsent(Act(b, ops[0], normalize), ops[1..], key, normalize);
    }
  }

  /**
   Once consumed, a challenge is never accepted again, in whichever ceremony, spelling and order of
   other operations, until its value is issued anew.
   */
  lemma SecondConsumeFails(b: Book, challenge: string, ceremony: Ceremony, now: int, ops: seq<Op>,
                           again: string, other: Ceremony, later: int, normalize: string -> Option<string>)
    requires Consume(b.t.rows, challenge, ceremony, now, normalize).1.Bound?
    requires normalize(again) == normalize(challenge)
    requires NotIssued(ops, normalize(challenge).value, normalize)
    ensures var after := Run(Act(b, Redeem(challenge, ceremony, now), normalize), ops, normalize);
            Consume(after.t.rows, again, other, later, normalize) == (after.t.rows, Unknown)
  {
    hide NotIssued;
    RunKeepsAbsent(Act(b, Redeem(challenge, ceremony, now), normalize), ops, normalize(challenge).value, normalize);
  }

  // ---------------------------------------------------------------- purging is not observable

  function TimeOf(op: Op, t: int): int {
    if op.Issue? then t else op.now
  }

  /** Answers of the consumptions of a run. */
  function Answers(t: Table, ops: seq<Op>, normalize: string -> Option<string>): seq<Consumed>
    decreases |ops|
  {
    if ops == [] then []
    else
      match ops[0]
      case Issue(challenge, ceremony, user, expires) => Answers(Store(t, challenge, ceremony, user, expires,
        normalize).0, ops[1..], normalize)
      case Redeem(challenge, ceremony, now) =>
        var r := Consume(t.rows, challenge, ceremony, now, normalize);
        [r.1] + Answers(t.(rows := r.0), ops[1..], normalize)
      case Sweep(now) => Answers(t.(rows := Purge(t.rows, now)), ops[1..], normalize)
  }

  /** Each consumption of a run answers from the table the operations before it left. */
  lemma {:induction false} AnswersLast(b: Book, ops: seq<Op>, op: Op, normalize: string -> Option<string>)
    ensures Answers(b.t, ops + [op], normalize) == Answers(b.t, ops, normalize) +
        match op
        case Redeem(challenge, ceremony, now) =>
          [Consume(Run(b, ops, normalize).t.rows, challenge, ceremony, now, normalize).1]
        case _ => []
    decreases |ops|
  {
    hide Store, Consume, Purge;
    if ops == [] {
      assert [] + [op] == [op] && [op][1..] == [];
    } else {
      assert (ops + [op])[1..] == ops[1..] + [op];
      AnswersLast(Act(b, ops[0], normalize), ops[1..], op, normalize);
    }
  }

  function WithoutSweeps(ops: seq<Op>): seq<Op> {
    if ops == [] then [] else (if ops[0].Sweep? then [] else [ops[0]]) + WithoutSweeps(ops[1..])
  }

  /** Time does not go back. */
  predicate Forward(ops: seq<Op>, t: int) {
    ops != [] ==> t <= TimeOf(ops[0], t) && Forward(ops[1..], TimeOf(ops[0], t))
  }

  /** No challenge is issued whose value is still in the table as an expired row, in the run without purges. */
  predicate NoReuse(table: Table, ops: seq<Op>, t: int, normalize: string -> Option<string>)
    decreases |ops|
  {
    ops != [] ==>
      match ops[0]
      case Issue(challenge, ceremony, user, expires) =>
        && (normalize(challenge).Some? && normalize(challenge).value in table.rows ==>
          table.rows[normalize(challenge).value].expires > t)
        && NoReuse(Store(table, challenge, ceremony, user, expires, normalize).0, ops[1..], t, normalize)
      case Redeem(challenge, ceremony, now) =>
        NoReuse(table.(rows := Consume(table.rows, challenge, ceremony, now, normalize).0), ops[1..], now, normalize)
      case Sweep(now) => NoReuse(table, ops[1..], now, normalize)
  }

  /** The purged table lacks only rows that are expired at `t`; row ids do not matter. */
  predicate Alike(purged: Rows, full: Rows, t: int) {
    && (forall k :: k in purged ==> k in full && SameBut(purged[k], full[k]))
    && (forall k :: k in full && k !in purged ==> full[k].expires <= t)
  }

  predicate SameBut(a: Challenge, b: Challenge) {
    a.ceremony == b.ceremony && a.user == b.user && a.expires == b.expires
  }

  lemma ConsumeAlike(purged: Rows, full: Rows, t: int, challenge: string, ceremony: Ceremony, now: int,
      normalize: string -> Option<string>)
    requires Alike(purged, full, t) && t <= now
    ensures var a, b := Consume(purged, challenge, ceremony, now, normalize),
        Consume(full, challenge, ceremony, now, normalize);
            a.1 == b.1 && Alike(a.0, b.0, now)
  {
  }

  lemma StoreAlike(purged: Table, full: Table, t: int, op: Op, normalize: string -> Option<string>)
    requires Alike(purged.rows, full.rows, t) && op.Issue?
    requires normalize(op.challenge).Some? && normalize(op.challenge).value in full.rows ==>
        full.rows[normalize(op.challenge).value].expires > t
    ensures var a := Store(purged, op.challenge, op.ceremony, op.user, op.expires, normalize);
            var b := Store(full, op.challenge, op.ceremony, op.user, op.expires, normalize);
            Alike(a.0.rows, b.0.rows, t)
  {
  }

  /**
   Purging never changes the answer of any later consumption: the run with its purges and the run
   without them answer alike, as long as time does not go back and no leftover value is reissued.
   */
  lemma {:induction false} PurgingIsInvisible(purged: Table, full: Table, ops: seq<Op>, t: int,
      normalize: string -> Option<string>)
    requires Alike(purged.rows, full.rows, t) && Forward(ops, t) && NoReuse(full, ops, t, normalize)
    ensures Answers(purged, ops, normalize) == Answers(full, WithoutSweeps(ops), normalize)
    decreases |ops|
  {
    hide Alike, Store, Consume, Purge;
    if ops != [] {
      var op, rest := ops[0], ops[1..];
      match op
      case Issue(challenge, ceremony, user, expires) =>
        StoreAlike(purged, full, t, op, normalize);
        var a, b := Store(purged, challenge, ceremony, user, expires, normalize).0,
          Store(full, challenge, ceremony, user, expires, normalize).0;
        PurgingIsInvisible(a, b, rest, t, normalize);
        assert ([op] + WithoutSweeps(rest))[1..] == WithoutSweeps(rest);
      case Redeem(challenge, ceremony, now) =>
        ConsumeAlike(purged.rows, full.rows, t, challenge, ceremony, now, normalize);
        var a, b := Consume(purged.rows, challenge, ceremony, now, normalize),
          Consume(full.rows, challenge, ceremony, now, normalize);
        PurgingIsInvisible(purged.(rows := a.0), full.(rows := b.0), rest, now, normalize);
        assert ([op] + WithoutSweeps(rest))[1..] == WithoutSweeps(rest);
      case Sweep(now) =>
        PurgeAlike(purged.rows, full.rows, t, now);
        PurgingIsInvisible(purged.(rows := Purge(purged.rows, now)), full, rest, now, normalize);
        assert [] + WithoutSweeps(rest) == WithoutSweeps(rest);
    }
  }

  lemma PurgeAlike(purged: Rows, full: Rows, t: int, now: int)
    requires Alike(purged, full, t) && t <= now
    ensures Alike(Purge(purged, now), full, now)
  {
  }

  /** The answer to issuing a challenge and redeeming it at once. */
  function Redeemed(t: Table, challenge: string, user: nat, expires: int, now: int,
      normalize: string -> Option<string>): Consumed {
    Consume(Store(t, challenge, Authentication, Some(user), expires, normalize).0.rows, challenge, Authentication, now,
      normalize).1
  }

  /** Reissuing right after a purge shows it exactly when an expired row of that value was there. */
  lemma ReuseShowsThePurge(t: Table, challenge: string, user: nat, expires: int, now: int,
      normalize: string -> Option<string>)
    requires normalize(challenge).Some? && expires > now
    ensures var key := normalize(challenge).value;
            var purged := t.(rows := Purge(t.rows, now));
            var visible := Redeemed(purged, challenge, user, expires, now, normalize) !=
              Redeemed(t, challenge, user, expires, now, normalize);
            visible <==> key in t.rows && t.rows[key].expires <= now
  {
    var key := normalize(challenge).value;
    RedeemedIs(t, challenge, user, expires, now, normalize);
    RedeemedIs(t.(rows := Purge(t.rows, now)), challenge, user, expires, now, normalize);
    hide Redeemed;
  }

  lemma RedeemedIs(t: Table, challenge: string, user: nat, expires: int, now: int, normalize: string -> Option<string>)
    requires normalize(challenge).Some? && expires > now
    ensures var key := normalize(challenge).value;
            Redeemed(t, challenge, user, expires, now, normalize) ==
              if key !in t.rows then Bound(Some(user))
              else if IsLive(t.rows[key], Authentication, now) then Bound(t.rows[key].user)
              else Unknown
  {
  }

  // ---------------------------------------------------------------- signature counters

  datatype Recorded = Accepted | Regressed | Negative

  /** `record_authentication`: the stored count afterwards and the answer. */
  function Record(stored: nat, presented: int): (nat, Recorded) {
    if presented < 0 then (stored, Negative)
    else if (if presented == 0 then stored == 0 else stored < presented) then (presented, Accepted)
    else (stored, Regressed)
  }

  /** Exactly which counts are accepted. */
  lemma RecordIs(stored: nat, presented: int)
    ensures var r := Record(stored, presented).1;
            && (r == Accepted <==> presented > stored || presented == stored == 0)
            && (r == Negative <==> presented < 0)
  {
  }

  class Passkey {
    var signCount: nat
    var lastUsed: Option<int>

    constructor (signCount: nat)
      ensures this.signCount == signCount && lastUsed == None
    {
      this.signCount, lastUsed := signCount, None;
    }

    method RecordAuthentication(presented: int, usedAt: int) returns (r: Recorded)
      modifies this
      ensures (signCount, r) == Record(old(signCount), presented)
      ensures lastUsed == if r == Accepted then Some(usedAt) else old(lastUsed)
    {
      if presented < 0 {
        return Negative;
      }
      var advances := if presented == 0 then signCount == 0 else signCount < presented;
      if !advances {
        return Regressed;
      }
      signCount, lastUsed := presented, Some(usedAt);
      return Accepted;
    }
  }

  function RecordAll(stored: nat, presented: seq<int>): nat
    decreases |presented|
  {
    if presented == [] then stored else RecordAll(Record(stored, presented[0]).0, presented[1..])
  }

  /** Counts accepted in a run. */
  function AcceptedCounts(stored: nat, presented: seq<int>): seq<int>
    decreases |presented|
  {
    if presented == [] then []
    else
      var r := Record(stored, presented[0]);
      (if r.1 == Accepted then [presented[0]] else []) + AcceptedCounts(r.0, presented[1..])
  }

  /** Counts that never go back from `stored`, and strictly grow once they are positive. */
  predicate Grows(stored: nat, counts: seq<int>) {
    && (forall i :: 0 <= i < |counts| ==> stored <= counts[i] && (stored > 0 ==> stored < counts[i]))
    && (forall i, j :: 0 <= i < j < |counts| ==> counts[i] <= counts[j] && (counts[i] > 0 ==> counts[i] < counts[j]))
  }

  function Last(stored: int, counts: seq<int>): int {
    if counts == [] then stored else counts[|counts| - 1]
  }

  lemma GrowsCons(stored: nat, first: nat, rest: seq<int>)
    requires first >= stored && (stored > 0 ==> first > stored) && Grows(first, rest)
    ensures Grows(stored, [first] + rest) && Last(stored, [first] + rest) == Last(first, rest)
  {
  }

  lemma GrowsNothing(stored: nat)
    ensures Grows(stored, []) && Last(stored, []) == stored
    ensures RecordAll(stored, []) == stored && AcceptedCounts(stored, []) == []
  {
  }

  lemma RecordStep(stored: nat, presented: seq<int>)
    requires presented != []
    ensures var r := Record(stored, presented[0]);
            && RecordAll(stored, presented) == RecordAll(r.0, presented[1..])
            && AcceptedCounts(stored, presented) ==
                 if r.1 == Accepted then [presented[0]] + AcceptedCounts(r.0, presented[1..])
                   else AcceptedCounts(r.0, presented[1..])
  {
    hide Record;
    assert [] + AcceptedCounts(Record(stored, presented[0]).0, presented[1..]) ==
      AcceptedCounts(Record(stored, presented[0]).0, presented[1..]);
  }

  lemma RecordCases(stored: nat, presented: int)
    ensures var r := Record(stored, presented);
            if r.1 == Accepted then r.0 == presented >= stored && (stored > 0 ==> presented > stored) else r.0 == stored
  {
  }

  /**
   The stored count never decreases, and once it is positive every accepted count is larger than
   all before it, as section 6.1.1 of Web Authentication Level 2 asks.
   */
  lemma {:induction false} CountsNeverGoBack(stored: nat, presented: seq<int>)
    ensures var accepted := AcceptedCounts(stored, presented);
            Grows(stored, accepted) && RecordAll(stored, presented) == Last(stored, accepted) >= stored
    decreases |presented|
  {
    hide *;
    if presented == [] {
      GrowsNothing(stored);
    } else {
      var r, rest := Record(stored, presented[0]), presented[1..];
      RecordCases(stored, presented[0]);
      RecordStep(stored, presented);
      CountsNeverGoBack(r.0, rest);
      if r.1 == Accepted {
        GrowsCons(stored, r.0, AcceptedCounts(r.0, rest));
      }
    }
  }
}
