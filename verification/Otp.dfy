/**
 One-time passwords and recovery codes (app/utils/otp.py, app/repositories/users.py,
 app/services/auth.py): clients read a user row, compute, and then update the row conditionally,
 in any interleaving.
 */
module Otp {
  import opened Text
  import opened Wrappers
  import opened Counting
  import D = Domains

  type Hash = int

  // ---------------------------------------------------------------- recovery codes

  predicate IsHex(c: char) {
    '0' <= c <= '9' || 'a' <= c <= 'f'
  }

  predicate IsCode(s: string) {
    |s| == 16 && forall k :: 0 <= k < |s| ==> IsHex(s[k])
  }

  function NormalizeCode(code: string): string {
    D.Lower(Strip(code))
  }

  /** A code is sixteen hexadecimal digits in small letters. */
  lemma CodeIs(s: string)
    ensures IsCode(s) <==> |s| == 16 && forall k :: 0 <= k < 16 ==> s[k] in "0123456789abcdef"
  {
  }

  /** White space around a code and capital letters in it make no difference. */
  lemma SpellingIsIgnored(before: string, typed: string, after: string, code: string)
    requires AllSpace(before) && AllSpace(after) && IsCode(code) && |typed| == 16
    requires forall k :: 0 <= k < 16 ==>
        typed[k] == code[k] || ('A' <= typed[k] <= 'F' && typed[k] + (32 as char) == code[k])
    ensures NormalizeCode(before + typed + after) == code
  {
    StripPadded(before, typed, after);
    StripTrimmed(typed);
    forall k | 0 <= k < 16 ensures D.Lower(typed)[k] == code[k] {
      D.LowerAt(typed, k);
    }
    hide Strip;
  }

  /** What is stored for a list of codes; None where one of them is not a recovery code. */
  function Serialize(codes: seq<string>, hash: string -> Hash): Option<seq<Hash>> {
    if codes == [] then Some([])
    else
      var n := NormalizeCode(codes[|codes| - 1]);
      match Serialize(codes[..|codes| - 1], hash)
      case None => None
      case Some(init) => if IsCode(n) then Some(init + [hash(n)]) else None
  }

  /** `serialize_recovery_codes`. */
  method SerializeRecoveryCodes(codes: seq<string>, hash: string -> Hash) returns (r: Option<seq<Hash>>)
    ensures r == Serialize(codes, hash)
  {
    hide NormalizeCode, IsCode;
    var hashed: seq<Hash> := [];
    for i := 0 to |codes|
      invariant Serialize(codes[..i], hash) == Some(hashed)
    {
      var normalized := NormalizeCode(codes[i]);
      assert codes[..i + 1][..i] == codes[..i];
      if !IsCode(normalized) {
        BadCodeFails(codes, i, hash);
        return None;
      }
      hashed := hashed + [hash(normalized)];
    }
    assert codes[..|codes|] == codes;
    return Some(hashed);
  }

  lemma {:induction false} BadCodeFails(codes: seq<string>, i: nat, hash: string -> Hash)
    requires i < |codes| && !IsCode(NormalizeCode(codes[i]))
    ensures Serialize(codes, hash) == None
  {
    hide NormalizeCode, IsCode;
    if i < |codes| - 1 {
      BadCodeFails(codes[..|codes| - 1], i, hash);
    }
  }

  /** The stored list without its first occurrence of `h`. */
  function Without(stored: seq<Hash>, h: Hash): seq<Hash> {
    if stored == [] then [] else if stored[0] == h then stored[1..] else [stored[0]] + Without(stored[1..], h)
  }

  /** `consume_recovery_code` on a normalized list of hashes. */
  function Consume(candidate: string, stored: seq<Hash>, hash: string -> Hash): (bool, seq<Hash>) {
    var n := NormalizeCode(candidate);
    if !IsCode(n) then (false, stored) else (hash(n) in stored, Without(stored, hash(n)))
  }

  method ConsumeRecoveryCode(candidate: string, stored: seq<Hash>, hash: string -> Hash)
      returns (found: bool, remaining: seq<Hash>)
    ensures (found, remaining) == Consume(candidate, stored, hash)
  {
    hide NormalizeCode, IsCode, Without;
    var normalized := NormalizeCode(candidate);
    if !IsCode(normalized) {
      return false, stored;
    }
    var h := hash(normalized);
    found, remaining := false, [];
    WithoutNothing(h);
    assert stored[..0] == [];
    for i := 0 to |stored|
      invariant found == (h in stored[..i])
      invariant remaining == Without(stored[..i], h)
    {
      assert stored[..i + 1] == stored[..i] + [stored[i]];
      WithoutLast(stored[..i], stored[i], h);
      if !found && h == stored[i] {
        found := true;
      } else {
        remaining := remaining + [stored[i]];
      }
    }
    assert stored[..|stored|] == stored;
  }

  lemma WithoutNothing(h: Hash)
    ensures Without([], h) == []
  {
  }

  lemma {:induction false} WithoutLast(init: seq<Hash>, last: Hash, h: Hash)
    ensures Without(init + [last], h) == Without(init, h) + if h !in init && last == h then [] else [last]
  {
    var all := init + [last];
    if init == [] {
      assert all == [last] && [last][1..] == [];
    } else {
      assert all[1..] == init[1..] + [last] && init == [init[0]] + init[1..];
      WithoutLast(init[1..], last, h);
    }
  }

  lemma {:induction false} WithoutFacts(stored: seq<Hash>, h: Hash)
    ensures multiset(Without(stored, h)) == multiset(stored) - multiset{h}
    ensures h !in stored ==> Without(stored, h) == stored
  {
    if stored != [] {
      assert stored == [stored[0]] + stored[1..];
      if stored[0] != h {
        WithoutFacts(stored[1..], h);
      }
    }
  }

  /** Every issued code is recognized: looking it up in the serialized list finds it. */
  lemma {:induction false} IssuedIsFound(codes: seq<string>, k: nat, hash: string -> Hash)
    requires k < |codes| && Serialize(codes, hash).Some?
    ensures Consume(codes[k], Serialize(codes, hash).value, hash).0
    ensures |Serialize(codes, hash).value| == |codes|
  {
    SerializedAt(codes, k, hash);
    hide NormalizeCode, Serialize;
  }

  lemma {:induction false} SerializedAt(codes: seq<string>, k: nat, hash: string -> Hash)
    requires k < |codes| && Serialize(codes, hash).Some?
    ensures |Serialize(codes, hash).value| == |codes|
    ensures IsCode(NormalizeCode(codes[k])) && Serialize(codes, hash).value[k] == hash(NormalizeCode(codes[k]))
  {
    hide NormalizeCode, IsCode;
    var init := codes[..|codes| - 1];
    if init != [] {
      SerializedAt(init, if k < |init| then k else 0, hash);
    }
  }

  // ---------------------------------------------------------------- the row and its history

  datatype Row = Row(secret: Option<int>, enabled: bool, codes: Option<seq<Hash>>, counter: Option<int>)

  /** What happened since the last confirmed enrollment. */
  datatype History = History(issued: seq<Hash>, accepted: seq<Hash>, counters: seq<int>)

  function EmptyRow(): Row {
    Row(None, false, None, None)
  }

  /** Shared row, its history, and what each client has loaded. */
  datatype State = State(row: Row, history: History, clients: map<nat, Row>)

  datatype Action =
    | Read
    | Begin(secret: int)
    | Confirm(totp: Option<int>, codes: seq<Hash>)
    | Verify(totp: Option<int>, candidate: string)
    | Disable

  datatype Reply = Done | Totp | Recovery | Refused

  /** `begin_otp_enrollment`: row, own copy, reply. */
  function BeginStep(row: Row, user: Row, secret: int): (Row, Row, Reply) {
    if user.enabled || row.enabled then (row, user, Refused)
    else (Row(Some(secret), false, None, None), user.(secret := Some(secret), codes := None, counter := None), Done)
  }

  /** `confirm_otp_enrollment`. */
  function ConfirmStep(row: Row, user: Row, totp: Option<int>, codes: seq<Hash>): (Row, Row, Reply) {
    if user.enabled || user.secret.None? || totp.None? then (row, user, Refused)
    else if row.enabled || row.secret != user.secret then (row, user, Refused)
    else
      (row.(enabled := true, codes := Some(codes), counter := totp),
          user.(enabled := true, codes := Some(codes), counter := totp), Done)
  }

  predicate Newer(counter: Option<int>, n: int) {
    counter.None? || counter.value < n
  }

  function StoredOf(user: Row): seq<Hash> {
    if user.codes.None? then [] else user.codes.value
  }

  /** `verify_otp_factor`; `totp` is the counter the code verifies for with the loaded secret. */
  function VerifyStep(row: Row, user: Row, totp: Option<int>, candidate: string,
      hash: string -> Hash): (Row, Row, Reply) {
    if !user.enabled then (row, user, Refused)
    else if totp.Some? && user.secret.Some? then
      if row.enabled && Newer(row.counter, totp.value) then (row.(counter := totp), user.(counter := totp), Totp)
        else (row, user, Refused)
    else
      var consumed := Consume(candidate, StoredOf(user), hash);
      if consumed.0 && row.enabled && row.codes == user.codes
      then (row.(codes := Some(consumed.1)), user.(codes := Some(consumed.1)), Recovery)
      else (row, user, Refused)
  }

  function StepOn(row: Row, user: Row, action: Action, hash: string -> Hash): (Row, Row, Reply) {
    match action
    case Read => (row, row, Done)
    case Begin(secret) => BeginStep(row, user, secret)
    case Confirm(totp, codes) => ConfirmStep(row, user, totp, codes)
    case Verify(totp, candidate) => VerifyStep(row, user, totp, candidate, hash)
    case Disable => (EmptyRow(), EmptyRow(), Done)
  }

  /** What the history learns from an answered action. */
  function Recorded(h: History, action: Action, reply: Reply, hash: string -> Hash): History {
    if action.Confirm? && reply == Done && action.totp.Some? then History(action.codes, [], [action.totp.value])
    else if action.Verify? && reply == Totp && action.totp.Some? then h.(counters := h.counters + [action.totp.value])
    else if action.Verify? && reply == Recovery
      then h.(accepted := h.accepted + [hash(NormalizeCode(action.candidate))])
    else h
  }

  /** What a client has loaded. */
  function CopyOf(s: State, client: nat): Row {
    if client in s.clients then s.clients[client] else EmptyRow()
  }

  /** One client acts on the shared row with what it has loaded. */
  function Act(s: State, client: nat, action: Action, hash: string -> Hash): (State, Reply) {
    var user := CopyOf(s, client);
    var r := StepOn(s.row, user, action, hash);
    (State(r.0, Recorded(s.history, action, r.2, hash), s.clients[client := r.1]), r.2)
  }

  // ---------------------------------------------------------------- the repository and the service

  class UserTable {
    var row: Row

    constructor ()
      ensures row == EmptyRow()
    {
      row := EmptyRow();
    }
  }

  /** A session with its loaded user object. */
  class Client {
    const table: UserTable
    var user: Row

    constructor (table: UserTable)
      ensures this.table == table && user == table.row
    {
      this.table := table;
      user := table.row;
    }

    method Load()
      modifies this
      ensures (table.row, user, Done) == StepOn(old(table.row), old(user), Read, _ => 0)
    {
      user := table.row;
    }

    method StartEnrollment(secret: int) returns (updated: bool)
      modifies this, table
      ensures updated == !old(table.row.enabled)
      ensures table.row == if updated then Row(Some(secret), false, None, None) else old(table.row)
      ensures user == if updated then old(user).(secret := Some(secret), codes := None, counter := None) else old(user)
    {
      updated := !table.row.enabled;
      if updated {
        table.row := table.row.(secret := Some(secret), codes := None, counter := None);
        user := user.(secret := Some(secret), codes := None, counter := None);
      }
    }

    method BeginEnrollment(secret: int) returns (reply: Reply)
      modifies this, table
      ensures (table.row, user, reply) == BeginStep(old(table.row), old(user), secret)
    {
      if user.enabled {
        return Refused;
      }
      var updated := StartEnrollment(secret);
      return if updated then Done else Refused;
    }

    method ConfirmEnrollment(totp: Option<int>, codes: seq<Hash>) returns (reply: Reply)
      modifies this, table
      ensures (table.row, user, reply) == ConfirmStep(old(table.row), old(user), totp, codes)
    {
      if user.enabled || user.secret.None? || totp.None? {
        return Refused;
      }
      if table.row.enabled || table.row.secret != user.secret {
        return Refused;
      }
      table.row := table.row.(enabled := true, codes := Some(codes), counter := totp);
      user := user.(enabled := true, codes := Some(codes), counter := totp);
      return Done;
    }

    method ConsumeCounter(counter: int) returns (updated: bool)
      modifies this, table
      ensures updated == (old(table.row.enabled) && Newer(old(table.row.counter), counter))
      ensures table.row == if updated then old(table.row).(counter := Some(counter)) else old(table.row)
      ensures user == if updated then old(user).(counter := Some(counter)) else old(user)
    {
      updated := table.row.enabled && Newer(table.row.counter, counter);
      if updated {
        table.row := table.row.(counter := Some(counter));
        user := user.(counter := Some(counter));
      }
    }

    method ReplaceCodes(previous: Option<seq<Hash>>, remaining: seq<Hash>) returns (updated: bool)
      modifies this, table
      ensures updated == (old(table.row.enabled) && old(table.row.codes) == previous)
      ensures table.row == if updated then old(table.row).(codes := Some(remaining)) else old(table.row)
      ensures user == if updated then old(user).(codes := Some(remaining)) else old(user)
    {
      updated := table.row.enabled && table.row.codes == previous;
      if updated {
        table.row := table.row.(codes := Some(remaining));
        user := user.(codes := Some(remaining));
      }
    }

    method VerifyFactor(totp: Option<int>, candidate: string, hash: string -> Hash) returns (reply: Reply)
      modifies this, table
      ensures (table.row, user, reply) == VerifyStep(old(table.row), old(user), totp, candidate, hash)
    {
      hide Consume;
      if !user.enabled {
        return Refused;
      }
      var updated: bool;
      if totp.Some? && user.secret.Some? {
        updated := ConsumeCounter(totp.value);
        return if updated then Totp else Refused;
      }
      var success, remaining := ConsumeRecoveryCode(candidate, StoredOf(user), hash);
      if !success {
        return Refused;
      }
      updated := ReplaceCodes(user.codes, remaining);
      return if updated then Recovery else Refused;
    }

    method DisableOtp()
      modifies this, table
      ensures table.row == EmptyRow() && user == EmptyRow()
    {
      table.row := EmptyRow();
      user := EmptyRow();
    }
  }

  // ---------------------------------------------------------------- what every interleaving keeps

  predicate Increasing(s: seq<int>) {
    forall i, j :: 0 <= i < j < |s| ==> s[i] < s[j]
  }

  /** Accepted and stored codes make up the issued ones; accepted counters grow up to the stored one. */
  predicate Accounted(row: Row, h: History) {
    row.enabled ==>
      && row.codes.Some? && multiset(row.codes.value) + multiset(h.accepted) == multiset(h.issued)
      && h.counters != [] && row.counter == Some(h.counters[|h.counters| - 1])
  }

  /** Holds at any time, also after the enrollment has been disabled. */
  predicate Bounded(h: History) {
    multiset(h.accepted) <= multiset(h.issued) && Increasing(h.counters)
  }

  predicate Sound(s: State) {
    Accounted(s.row, s.history) && Bounded(s.history)
  }

  lemma VerifyKeeps(row: Row, user: Row, h: History, totp: Option<int>, candidate: string, hash: string -> Hash)
    requires Accounted(row, h) && Bounded(h)
    ensures var r := VerifyStep(row, user, totp, candidate, hash);
            var next := Recorded(h, Verify(totp, candidate), r.2, hash);
            Accounted(r.0, next) && Bounded(next)
  {
    hide *;
    var r := VerifyStep(row, user, totp, candidate, hash);
    VerifyCases(row, user, totp, candidate, hash);
    RecordedCases(h, totp, candidate, r.2, hash);
    match r.2
    case Totp => CounterKeeps(row, h, totp.value);
    case Recovery =>
      var n := hash(NormalizeCode(candidate));
      CodeKeeps(row, h, n);
    case _ =>
  }

  /** The three ways a verification ends. */
  lemma VerifyCases(row: Row, user: Row, totp: Option<int>, candidate: string, hash: string -> Hash)
    ensures var r, n := VerifyStep(row, user, totp, candidate, hash), hash(NormalizeCode(candidate));
            match r.2
            case Totp => totp.Some? && row.enabled && Newer(row.counter, totp.value) && r.0 == row.(counter := totp)
            case Recovery => row.enabled && n in StoredOf(row) && r.0 == row.(codes := Some(Without(StoredOf(row), n)))
            case _ => r.2 == Refused && r.0 == row
  {
    hide NormalizeCode, IsCode, Without;
  }

  lemma RecordedCases(h: History, totp: Option<int>, candidate: string, reply: Reply, hash: string -> Hash)
    ensures Recorded(h, Verify(totp, candidate), reply, hash) ==
              if reply == Totp && totp.Some? then h.(counters := h.counters + [totp.value])
              else if reply == Recovery then h.(accepted := h.accepted + [hash(NormalizeCode(candidate))])
              else h
  {
    hide NormalizeCode;
  }

  lemma CounterKeeps(row: Row, h: History, counter: int)
    requires Accounted(row, h) && Bounded(h) && row.enabled && Newer(row.counter, counter)
    ensures var next := h.(counters := h.counters + [counter]);
            Accounted(row.(counter := Some(counter)), next) && Bounded(next)
  {
  }

  lemma CodeKeeps(row: Row, h: History, n: Hash)
    requires Accounted(row, h) && Bounded(h) && row.enabled && n in StoredOf(row)
    ensures var next := h.(accepted := h.accepted + [n]);
            Accounted(row.(codes := Some(Without(StoredOf(row), n))), next) && Bounded(next)
  {
    WithoutFacts(StoredOf(row), n);
    hide Without, Increasing;
    assert multiset(h.accepted + [n]) == multiset(h.accepted) + multiset{n};
    assert n in multiset(row.codes.value);
  }

  lemma ActKeepsSound(s: State, client: nat, action: Action, hash: string -> Hash)
    requires Sound(s)
    ensures Sound(Act(s, client, action, hash).0)
  {
    hide NormalizeCode, VerifyStep, Consume;
    var user := CopyOf(s, client);
    if action.Verify? {
      VerifyKeeps(s.row, user, s.history, action.totp, action.candidate, hash);
    }
  }

  datatype Turn = Turn(client: nat, action: Action)

  function Run(s: State, turns: seq<Turn>, hash: string -> Hash): State
    decreases |turns|
  {
    if turns == [] then s else Run(Act(s, turns[0].client, turns[0].action, hash).0, turns[1..], hash)
  }

  /**
   Under any interleaving: accepted codes plus stored codes are exactly the issued ones, and the
   accepted counters strictly increase from the counter of the enrollment.
   */
  lemma {:induction false} RunKeepsSound(s: State, turns: seq<Turn>, hash: string -> Hash)
    requires Sound(s)
    ensures Sound(Run(s, turns, hash))
    decreases |turns|
  {
    hide Sound, Act;
    if turns != [] {
      ActKeepsSound(s, turns[0].client, turns[0].action, hash);
      RunKeepsSound(Act(s, turns[0].client, turns[0].action, hash).0, turns[1..], hash);
    }
  }

  /** Each of distinct issued codes is accepted at most once per enrollment. */
  lemma AcceptedAtMostOnce(s: State, turns: seq<Turn>, hash: string -> Hash)
    requires Sound(s) && Distinct(Run(s, turns, hash).history.issued)
    ensures Distinct(Run(s, turns, hash).history.accepted)
  {
    RunKeepsSound(s, turns, hash);
    hide Run;
    var h := Run(s, turns, hash).history;
    forall i, j | 0 <= i < j < |h.accepted| ensures h.accepted[i] != h.accepted[j] {
      DistinctCount(h.issued, h.accepted[i]);
      if h.accepted[i] == h.accepted[j] {
        TwiceCounts(h.accepted, i, j);
      }
    }
  }

  /**
   When a recovery code is accepted: exactly when it is among the codes the client has loaded and
   nobody has changed the stored list since.
   */
  lemma RecoveryAccepted(row: Row, user: Row, candidate: string, hash: string -> Hash)
    requires user.enabled
    ensures VerifyStep(row, user, None, candidate, hash).2 == Recovery <==>
              && IsCode(NormalizeCode(candidate)) && hash(NormalizeCode(candidate)) in StoredOf(user)
              && row.enabled && row.codes == user.codes
  {
    hide NormalizeCode, IsCode;
  }

  /** A client that has just read the row can spend any code that is still stored. */
  lemma FreshReadAccepts(s: State, client: nat, candidate: string, hash: string -> Hash)
    requires Sound(s) && s.row.enabled
    requires IsCode(NormalizeCode(candidate)) && hash(NormalizeCode(candidate)) in s.row.codes.value
    ensures var read := Act(s, client, Read, hash).0;
            var done := Act(read, client, Verify(None, candidate), hash);
            && done.1 == Recovery
            && multiset(done.0.row.codes.value) ==
              multiset(s.row.codes.value) - multiset{hash(NormalizeCode(candidate))}
  {
    WithoutFacts(s.row.codes.value, hash(NormalizeCode(candidate)));
    hide NormalizeCode, IsCode;
  }

  // ---------------------------------------------------------------- which secret gets enabled

  /** An enrollment begins exactly if neither row is enabled; it replaces the secret and forgets the rest. */
  lemma BeginAccepted(s: State, client: nat, secret: int, hash: string -> Hash)
    ensures var copy, r := CopyOf(s, client), Act(s, client, Begin(secret), hash);
            && (r.1 == Done <==> !copy.enabled && !s.row.enabled)
            && (r.1 == Done ==>
                  && r.0.row == Row(Some(secret), false, None, None)
                  && CopyOf(r.0, client) == Row(Some(secret), copy.enabled, None, None))
            && (r.1 != Done ==> r.1 == Refused && r.0.row == s.row && CopyOf(r.0, client) == copy)
  {
  }

  /**
   An enrollment is confirmed exactly if neither the loaded nor the stored row is enabled and the
   secret the client has loaded, and verified the code with, is still the stored one.
   */
  lemma ConfirmAccepted(s: State, client: nat, totp: Option<int>, codes: seq<Hash>, hash: string -> Hash)
    ensures var copy, r := CopyOf(s, client), Act(s, client, Confirm(totp, codes), hash);
            && (r.1 == Done <==>
                  totp.Some? && !copy.enabled && copy.secret.Some? && !s.row.enabled && s.row.secret == copy.secret)
            && r.0.row == (if r.1 == Done then Row(copy.secret, true, Some(codes), totp) else s.row)
            && CopyOf(r.0, client) == (if r.1 == Done then Row(copy.secret, true, Some(codes), totp) else copy)
            && (r.1 == Done || r.1 == Refused)
  {
    hide NormalizeCode;
  }

  lemma {:induction false} RunLast(s: State, turns: seq<Turn>, last: Turn, hash: string -> Hash)
    ensures Run(s, turns + [last], hash) == Act(Run(s, turns, hash), last.client, last.action, hash).0
    decreases |turns|
  {
    hide Act;
    var all := turns + [last];
    if turns == [] {
      assert all == [last] && all[1..] == [];
    } else {
      assert all[0] == turns[0] && all[1..] == turns[1..] + [last];
      RunLast(Act(s, turns[0].client, turns[0].action, hash).0, turns[1..], last, hash);
    }
  }

  /** Turn `j` is a confirmation by a client that had loaded, and verified a code with, that secret. */
  predicate Confirms(s: State, turns: seq<Turn>, j: nat, secret: Option<int>, hash: string -> Hash)
    requires j < |turns|
  {
    var before, turn := Run(s, turns[..j], hash), turns[j];
    && turn.action.Confirm? && turn.action.totp.Some?
    && CopyOf(before, turn.client).secret == secret && !CopyOf(before, turn.client).enabled
    && before.row.secret == secret && !before.row.enabled
  }

  /** An action leaves an enabled row with its secret, or was the confirmation that enabled it. */
  lemma EnabledStep(s: State, client: nat, action: Action, hash: string -> Hash)
    requires Act(s, client, action, hash).0.row.enabled
    ensures var row := Act(s, client, action, hash).0.row;
            && (s.row.enabled ==> row.secret == s.row.secret)
            && (!s.row.enabled ==>
                  && action.Confirm? && action.totp.Some? && !CopyOf(s, client).enabled && s.row.secret.Some?
                  && CopyOf(s, client).secret == s.row.secret == row.secret)
  {
    hide NormalizeCode, Consume, Recorded;
  }

  /**
   In every interleaving: the secret of an enabled row is the one that the client whose confirmation
   enabled it had loaded and verified a code with, and that was still stored then.
   */
  lemma {:induction false} EnabledByConfirmation(s: State, turns: seq<Turn>, hash: string -> Hash) returns (j: nat)
    requires !s.row.enabled && Run(s, turns, hash).row.enabled
    ensures j < |turns| && Run(s, turns, hash).row.secret.Some?
    ensures Confirms(s, turns, j, Run(s, turns, hash).row.secret, hash)
    decreases |turns|
  {
    hide Act;
    var n := |turns| - 1;
    var init, last := turns[..n], turns[n];
    assert turns == init + [last];
    RunLast(s, init, last, hash);
    EnabledStep(Run(s, init, hash), last.client, last.action, hash);
    if Run(s, init, hash).row.enabled {
      j := EnabledByConfirmation(s, init, hash);
      assert turns[..j] == init[..j] && turns[j] == init[j];
    } else {
      j := n;
    }
  }

  // ---------------------------------------------------------------- which secret a counter was verified with

  /**
   A counter is accepted if the client has loaded an enabled row and the stored counter is older.
   Nothing compares the secret the client verified with to the stored one.
   */
  lemma TotpAccepted(row: Row, user: Row, counter: int, candidate: string, hash: string -> Hash)
    requires user.secret.Some?
    ensures var r := VerifyStep(row, user, Some(counter), candidate, hash);
            && (r.2 == Totp <==>
                  user.enabled && row.enabled && (row.counter.None? || row.counter.value < counter))
            && (r.2 == Totp ==> r.0 == row.(counter := Some(counter)) && r.1 == user.(counter := Some(counter)))
            && (r.2 != Totp ==> r == (row, user, Refused))
  {
    hide Consume;
  }

  /** Without a loaded secret there is no counter to accept; what is typed can only be a recovery code. */
  lemma NoSecretNoTotp(row: Row, user: Row, totp: Option<int>, candidate: string, hash: string -> Hash)
    requires user.secret.None?
    ensures VerifyStep(row, user, totp, candidate, hash) == VerifyStep(row, user, None, candidate, hash)
    ensures VerifyStep(row, user, totp, candidate, hash).2 != Totp
  {
    hide Consume;
  }

  /** The client does nothing but verify, and nobody begins an enrollment with that secret again. */
  predicate Leaves(turn: Turn, client: nat, secret: Option<int>) {
    && (turn.client == client ==> turn.action.Verify?)
    && (turn.action.Begin? ==> Some(turn.action.secret) != secret)
  }

  /** The client holds an enabled copy with that secret. */
  predicate Holds(s: State, client: nat, secret: Option<int>) {
    client in s.clients && s.clients[client].enabled && s.clients[client].secret == secret
  }

  lemma ActOnSecret(s: State, turn: Turn, client: nat, secret: Option<int>, hash: string -> Hash)
    requires Holds(s, client, secret) && secret.Some? && Leaves(turn, client, secret)
    ensures var t := Act(s, turn.client, turn.action, hash).0;
            && Holds(t, client, secret)
            && (s.row.enabled && s.row.secret == secret ==>
                  if turn.action.Disable? then t.row.secret != secret else t.row.enabled && t.row.secret == secret)
            && (s.row.secret != secret ==> t.row.secret != secret)
  {
    hide Consume, Recorded;
  }

  lemma {:induction false} OtherSecretStays(s: State, turns: seq<Turn>, client: nat, secret: Option<int>,
      hash: string -> Hash)
    requires Holds(s, client, secret) && secret.Some? && s.row.secret != secret
    requires forall k :: 0 <= k < |turns| ==> Leaves(turns[k], client, secret)
    ensures var t := Run(s, turns, hash); Holds(t, client, secret) && t.row.secret != secret
    decreases |turns|
  {
    hide Holds, Leaves, Act;
    if turns != [] {
      ActOnSecret(s, turns[0], client, secret, hash);
      OtherSecretStays(Act(s, turns[0].client, turns[0].action, hash).0, turns[1..], client, secret, hash);
    }
  }

  /**
   A client that has loaded the current enrollment and goes on verifying verifies with the secret of
   the stored row exactly as long as nobody has disabled OTP since, in every interleaving.
   */
  lemma {:induction false} SecretIsCurrent(s: State, turns: seq<Turn>, client: nat, hash: string -> Hash)
    requires s.row.enabled && s.row.secret.Some? && Holds(s, client, s.row.secret)
    requires forall k :: 0 <= k < |turns| ==> Leaves(turns[k], client, s.row.secret)
    ensures var t := Run(s, turns, hash);
            && Holds(t, client, s.row.secret)
            && (t.clients[client].secret == t.row.secret <==>
              forall k :: 0 <= k < |turns| ==> !turns[k].action.Disable?)
    decreases |turns|
  {
    hide Leaves, Act;
    if turns != [] {
      var next := Act(s, turns[0].client, turns[0].action, hash).0;
      ActOnSecret(s, turns[0], client, s.row.secret, hash);
      if turns[0].action.Disable? {
        OtherSecretStays(next, turns[1..], client, s.row.secret, hash);
      } else {
        SecretIsCurrent(next, turns[1..], client, hash);
        assert forall k :: 0 < k < |turns| ==> turns[k] == turns[1..][k - 1];
      }
    }
  }

  /** The failing interleaving: a code of the old secret is accepted after a new enrollment. */
  lemma OldSecretIsAccepted(s: State, client: nat, other: nat, secret: int, first: int, counter: int, codes: seq<Hash>,
                            candidate: string, hash: string -> Hash)
    requires s.row.enabled && s.row.secret.Some? && s.row.secret != Some(secret)
    requires client != other && first < counter
    ensures var turns := [Turn(client, Read), Turn(other, Disable), Turn(other, Begin(secret)),
        Turn(other, Confirm(Some(first), codes))];
            var t := Run(s, turns, hash);
            && t.row == Row(Some(secret), true, Some(codes), Some(first))
            && client in t.clients && t.clients[client] == s.row
            && Act(t, client, Verify(Some(counter), candidate), hash).1 == Totp
  {
    var turns := [Turn(client, Read), Turn(other, Disable), Turn(other, Begin(secret)),
      Turn(other, Confirm(Some(first), codes))];
    var a := Act(s, client, Read, hash).0;
    var b := Act(a, other, Disable, hash).0;
    var c := Act(b, other, Begin(secret), hash).0;
    var d := Act(c, other, Confirm(Some(first), codes), hash).0;
    RunFour(s, turns, a, b, c, d, hash);
    TotpAccepted(d.row, s.row, counter, candidate, hash);
    hide Run, Consume, Recorded, VerifyStep;
  }

  lemma RunFour(s: State, turns: seq<Turn>, a: State, b: State, c: State, d: State, hash: string -> Hash)
    requires |turns| == 4
    requires a == Act(s, turns[0].client, turns[0].action, hash).0
        && b == Act(a, turns[1].client, turns[1].action, hash).0
    requires c == Act(b, turns[2].client, turns[2].action, hash).0
        && d == Act(c, turns[3].client, turns[3].action, hash).0
    ensures Run(s, turns, hash) == d
  {
    hide Act;
    assert turns[1..][0] == turns[1] && turns[1..][1..] == turns[2..] && turns[2..][1..] == turns[3..]
      && turns[3..][1..] == [];
    assert Run(d, [], hash) == d;
    assert Run(c, turns[3..], hash) == d;
    assert Run(b, turns[2..], hash) == d;
    assert Run(a, turns[1..], hash) == d;
  }

  /** A counter that was accepted is never accepted again within its enrollment, whoever presents it. */
  lemma CounterNotReplayed(s: State, turns: seq<Turn>, client: nat, counter: int, candidate: string,
      hash: string -> Hash)
    requires Sound(s)
    requires var t := Run(s, turns, hash); t.row.enabled && counter in t.history.counters
    ensures Act(Run(s, turns, hash), client, Verify(Some(counter), candidate), hash).1 != Totp
  {
    hide *;
    var t := Run(s, turns, hash);
    RunKeepsSound(s, turns, hash);
    CountersBelow(t, counter);
    ActVerifies(t, client, counter, candidate, hash);
    if CopyOf(t, client).secret.Some? {
      TotpAccepted(t.row, CopyOf(t, client), counter, candidate, hash);
    } else {
      NoSecretNoTotp(t.row, CopyOf(t, client), Some(counter), candidate, hash);
    }
  }

  lemma CountersBelow(t: State, counter: int)
    requires Sound(t) && t.row.enabled && counter in t.history.counters
    ensures t.row.counter.Some? && counter <= t.row.counter.value
  {
    var counters := t.history.counters;
    var k :| 0 <= k < |counters| && counters[k] == counter;
    assert k == |counters| - 1 || counters[k] < counters[|counters| - 1];
  }

  lemma ActVerifies(t: State, client: nat, counter: int, candidate: string, hash: string -> Hash)
    ensures Act(t, client, Verify(Some(counter), candidate), hash).1 ==
              VerifyStep(t.row, CopyOf(t, client), Some(counter), candidate, hash).2
  {
    hide VerifyStep, Recorded;
  }
}
