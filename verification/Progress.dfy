/** Progress of the statuses a plan waits on: every status' reports are folded into one payload,
    and what is published is throttled per status. One run is one wait. */
module Progress {
  import opened Wrappers
  import opened Models

  datatype Field =
    | Name | Current | Start | Target | Unit | Precision | Fraction | TimeElapsed | TimeRemaining

  /** The values seen so far; a field that is absent was never given, or only given as None. */
  datatype Payload = Payload(values: map<Field, Json>, done: bool)

  /** One callback: an update with the fields it gives (`marked`: the status says it is done), or
      the completion of the status. `number` counts the status within the wait. */
  datatype Input =
    | Update(id: nat, number: nat, given: map<Field, Json>, marked: bool, now: real)
    | Completion(id: nat, number: nat)

  datatype Event = Statuses(shown: map<string, Payload>) | WaitCompleted

  datatype State = State(payloads: map<nat, Payload>, order: seq<nat>, lastSent: map<nat, real>)

  const INITIAL := State(map[], [], map[])

  function Digit(n: nat): char
    requires n < 10
  {
    "0123456789"[n]
  }

  function Decimal(n: nat): string {
    if n < 10 then [Digit(n)] else Decimal(n / 10) + [Digit(n % 10)]
  }

  function OwnName(number: nat): Json {
    Text("status_" + Decimal(number))
  }

  function Named(values: map<Field, Json>, number: nat): map<Field, Json> {
    if Name in values then values else values[Name := OwnName(number)]
  }

  predicate FractionAtOne(given: map<Field, Json>) {
    Fraction in given && given[Fraction].Number? && given[Fraction].n >= 1.0
  }

  /** Whether an input says that the status is done. */
  predicate SaysDone(l: Input) {
    match l
    case Update(_, _, given, marked, _) => marked || FractionAtOne(given)
    case Completion(_, _) => true
  }

  predicate Finished(s: State, id: nat) {
    id in s.payloads && s.payloads[id].done
  }

  function LastValues(s: State, id: nat): map<Field, Json> {
    if id in s.payloads then s.payloads[id].values else map[]
  }

  function Stored(s: State, id: nat, p: Payload): State {
    s.(payloads := s.payloads[id := p], order := if id in s.payloads then s.order else s.order + [id])
  }

  /** Whether an input publishes, in a watcher with this minimal period. */
  predicate Emits(s: State, l: Input, period: real) {
    && !Finished(s, l.id)
    && (l.Update? && !SaysDone(l) && l.id in s.lastSent ==> l.now - s.lastSent[l.id] >= period)
  }

  /** The state after an input. */
  function Next(s: State, l: Input, period: real): State {
    if Finished(s, l.id) then s
    else match l
      case Update(id, number, given, _, now) =>
        var t := Stored(s, id, Payload(LastValues(s, id) + Named(given, number), SaysDone(l)));
        if Emits(s, l, period) then t.(lastSent := t.lastSent[id := now]) else t
      case Completion(id, number) =>
        Stored(s, id, Payload(Named(LastValues(s, id), number)[Fraction := Number(1.0)], true))
  }

  /** The name a payload is shown under. */
  function Key(p: Payload): string {
    if Name in p.values && p.values[Name].Text? && p.values[Name].s != "" then p.values[Name].s else "unknown"
  }

  /** Every status under its name; of two with the same name the one heard from later is shown. */
  function Snapshot(payloads: map<nat, Payload>, order: seq<nat>): map<string, Payload>
    requires forall id <- order :: id in payloads
  {
    if order == [] then map[]
    else
      var last := payloads[order[|order| - 1]];
      Snapshot(payloads, order[..|order| - 1])[Key(last) := last]
  }

  ghost predicate Listed(s: State) {
    && (forall id :: id in s.order <==> id in s.payloads)
    && (forall i, j :: 0 <= i < j < |s.order| ==> s.order[i] != s.order[j])
  }

  // ---- one wait -------------------------------------------------------------------------------

  /** The state after the first n inputs of a wait. */
  function At(ls: seq<Input>, n: nat, period: real): State
    requires n <= |ls|
  {
    if n == 0 then INITIAL else Next(At(ls, n - 1, period), ls[n - 1], period)
  }

  predicate EmitsAt(ls: seq<Input>, i: nat, period: real)
    requires i < |ls|
  {
    Emits(At(ls, i, period), ls[i], period)
  }

  /** Whether the status was reported done before input i. */
  ghost predicate DoneBefore(ls: seq<Input>, i: nat, id: nat)
    requires i <= |ls|
  {
    exists k :: 0 <= k < i && ls[k].id == id && SaysDone(ls[k])
  }

  /** The inputs of one status up to and with the first that says it is done. */
  ghost function Heard(ls: seq<Input>, n: nat, id: nat): seq<Input>
    requires n <= |ls|
  {
    if n == 0 then []
    else if ls[n - 1].id == id && !DoneBefore(ls, n - 1, id) then Heard(ls, n - 1, id) + [ls[n - 1]]
    else Heard(ls, n - 1, id)
  }

  /** What the k-th input of a status says about a field, if anything: an unnamed update and a
      completion that comes first bring the status' own name. */
  function Reported(heard: seq<Input>, k: nat, f: Field): Option<Json>
    requires k < |heard|
  {
    match heard[k]
    case Update(_, number, given, _, _) =>
      if f in given then Some(given[f]) else if f.Name? then Some(OwnName(number)) else None
    case Completion(_, number) =>
      if f.Fraction? then Some(Number(1.0)) else if f.Name? && k == 0 then Some(OwnName(number)) else None
  }

  function Lookup(values: map<Field, Json>, f: Field): Option<Json> {
    if f in values then Some(values[f]) else None
  }

  /** The payload carries, for every field, the latest value that was given at all, and is done
      exactly if the last input says so. */
  ghost predicate IsFold(p: Payload, heard: seq<Input>)
    requires heard != []
  {
    && p.done == SaysDone(heard[|heard| - 1])
    && forall f :: IsLatest(Lookup(p.values, f), heard, f)
  }

  ghost predicate IsLatest(v: Option<Json>, heard: seq<Input>, f: Field) {
    if v.None? then forall k :: 0 <= k < |heard| ==> Reported(heard, k, f).None?
    else exists k :: 0 <= k < |heard| && Reported(heard, k, f) == v && SilentAfter(heard, k, f)
  }

  ghost predicate SilentAfter(heard: seq<Input>, k: nat, f: Field) {
    forall j :: k < j < |heard| ==> Reported(heard, j, f).None?
  }

  lemma {:induction false} FinishedExactlyWhen(ls: seq<Input>, n: nat, period: real, id: nat)
    requires n <= |ls|
    ensures Finished(At(ls, n, period), id) <==> DoneBefore(ls, n, id)
  {
    if n > 0 {
      FinishedExactlyWhen(ls, n - 1, period, id);
      if ls[n - 1].id == id {
        assert SaysDone(ls[n - 1]) ==> DoneBefore(ls, n, id);
      }
    }
  }

  lemma MoreReports(heard: seq<Input>, l: Input, f: Field, k: nat)
    requires k < |heard|
    ensures Reported(heard + [l], k, f) == Reported(heard, k, f)
  {
  }

  /** One more report of a field replaces the value, or leaves it if it says nothing. */
  lemma LatestGoesOn(v: Option<Json>, w: Option<Json>, heard: seq<Input>, l: Input, f: Field)
    requires IsLatest(v, heard, f)
    requires var r := Reported(heard + [l], |heard|, f); w == if r.Some? then r else v
    ensures IsLatest(w, heard + [l], f)
  {
    var more := heard + [l];
    forall k | 0 <= k < |heard|
      ensures Reported(more, k, f) == Reported(heard, k, f)
    {
      MoreReports(heard, l, f, k);
    }
    if Reported(more, |heard|, f).None? && v.Some? {
      var k :| 0 <= k < |heard| && Reported(heard, k, f) == v && SilentAfter(heard, k, f);
      assert Reported(more, k, f) == w && SilentAfter(more, k, f);
    }
  }

  lemma NextFolds(s: State, l: Input, period: real, heard: seq<Input>)
    requires l.id in s.payloads <==> heard != []
    requires heard != [] ==> IsFold(s.payloads[l.id], heard) && Name in s.payloads[l.id].values
    requires !Finished(s, l.id)
    ensures var t := Next(s, l, period);
      l.id in t.payloads && IsFold(t.payloads[l.id], heard + [l]) && Name in t.payloads[l.id].values
  {
    var before, after := LastValues(s, l.id), Next(s, l, period).payloads[l.id].values;
    forall f
      ensures IsLatest(Lookup(after, f), heard + [l], f)
    {
      LatestGoesOn(Lookup(before, f), Lookup(after, f), heard, l, f);
    }
  }

  /** The payload kept for a status is the fold of what was heard from it. */
  ghost predicate KeptAsFold(s: State, id: nat, heard: seq<Input>) {
    && (id in s.payloads <==> heard != [])
    && (heard != [] ==> IsFold(s.payloads[id], heard) && Name in s.payloads[id].values)
  }

  lemma NextLeaves(s: State, l: Input, period: real, id: nat, heard: seq<Input>)
    requires l.id != id || Finished(s, id)
    requires KeptAsFold(s, id, heard)
    ensures KeptAsFold(Next(s, l, period), id, heard)
  {
  }

  lemma {:induction false} PayloadsAreFolds(ls: seq<Input>, n: nat, period: real, id: nat)
    requires n <= |ls|
    ensures KeptAsFold(At(ls, n, period), id, Heard(ls, n, id))
  {
    if n > 0 {
      var s, heard := At(ls, n - 1, period), Heard(ls, n - 1, id);
      PayloadsAreFolds(ls, n - 1, period, id);
      FinishedExactlyWhen(ls, n - 1, period, id);
      if ls[n - 1].id == id && !DoneBefore(ls, n - 1, id) {
        NextFolds(s, ls[n - 1], period, heard);
      } else {
        NextLeaves(s, ls[n - 1], period, id, heard);
      }
    }
  }

  lemma NextStaysListed(s: State, l: Input, period: real)
    requires Listed(s)
    ensures Listed(Next(s, l, period))
  {
  }

  lemma {:induction false} StaysListed(ls: seq<Input>, n: nat, period: real)
    requires n <= |ls|
    ensures Listed(At(ls, n, period))
  {
    if n > 0 {
      StaysListed(ls, n - 1, period);
      NextStaysListed(At(ls, n - 1, period), ls[n - 1], period);
    }
  }

  // ---- the names statuses are shown under -----------------------------------------------------

  /** A payload bears its name if that is a text and not empty, else the name "unknown". */
  ghost predicate Bears(p: Payload, key: string) {
    if Name in p.values && p.values[Name].Text? && p.values[Name].s != ""
    then p.values[Name] == Text(key)
    else key == "unknown"
  }

  /** No status first heard of after the i-th bears this name. */
  ghost predicate LastToBear(payloads: map<nat, Payload>, order: seq<nat>, i: nat, key: string)
    requires i < |order| && forall id <- order :: id in payloads
  {
    && Bears(payloads[order[i]], key)
    && forall j :: i < j < |order| ==> !Bears(payloads[order[j]], key)
  }

  lemma {:induction false} SnapshotShows(payloads: map<nat, Payload>, order: seq<nat>, i: nat, key: string)
    requires i < |order| && (forall id <- order :: id in payloads) && LastToBear(payloads, order, i, key)
    ensures key in Snapshot(payloads, order) && Snapshot(payloads, order)[key] == payloads[order[i]]
  {
    var n := |order| - 1;
    if i < n {
      assert !Bears(payloads[order[n]], key);
      assert LastToBear(payloads, order[..n], i, key);
      SnapshotShows(payloads, order[..n], i, key);
    }
  }

  lemma {:induction false} SnapshotShowsOnly(payloads: map<nat, Payload>, order: seq<nat>, key: string)
    returns (i: nat)
    requires forall id <- order :: id in payloads
    requires key in Snapshot(payloads, order)
    ensures i < |order| && LastToBear(payloads, order, i, key)
  {
    var n := |order| - 1;
    if Bears(payloads[order[n]], key) {
      i := n;
    } else {
      i := SnapshotShowsOnly(payloads, order[..n], key);
    }
  }

  /** Throttling loses nothing: whatever is published after n inputs shows the fold of all inputs of
      a status so far, up to its first done and those included that published nothing themselves,
      under the name it bears; and it shows every status heard from, except one whose name a status
      first heard of later bears too, and nothing else. */
  lemma SnapshotIsFoldOfEverything(ls: seq<Input>, n: nat, period: real)
    requires n <= |ls|
    ensures var s := At(ls, n, period);
      && Listed(s)
      && (forall id :: id in s.order <==> Heard(ls, n, id) != [])
      && var shown := Snapshot(s.payloads, s.order);
      && (forall i, key :: 0 <= i < |s.order| && LastToBear(s.payloads, s.order, i, key) ==>
            ShownAsFold(shown, key, Heard(ls, n, s.order[i])))
      && (forall key <- shown :: IsName(s, key))
  {
    var s := At(ls, n, period);
    StaysListed(ls, n, period);
    var shown := Snapshot(s.payloads, s.order);
    forall id
      ensures id in s.order <==> Heard(ls, n, id) != []
    {
      PayloadsAreFolds(ls, n, period, id);
    }
    forall i, key | 0 <= i < |s.order| && LastToBear(s.payloads, s.order, i, key)
      ensures ShownAsFold(shown, key, Heard(ls, n, s.order[i]))
    {
      PayloadsAreFolds(ls, n, period, s.order[i]);
      SnapshotShows(s.payloads, s.order, i, key);
    }
    forall key | key in shown
      ensures IsName(s, key)
    {
      var i := SnapshotShowsOnly(s.payloads, s.order, key);
    }
  }

  ghost predicate IsName(s: State, key: string) {
    exists id <- s.order :: id in s.payloads && Bears(s.payloads[id], key)
  }

  ghost predicate ShownAsFold(shown: map<string, Payload>, key: string, heard: seq<Input>) {
    key in shown && heard != [] && IsFold(shown[key], heard)
  }

  /** A status whose latest name is a text that is not empty, and not the name of a status first heard
      of later, is shown under that text, as its fold. */
  lemma NamedIsShown(ls: seq<Input>, n: nat, period: real, i: nat, name: string)
    requires n <= |ls| && i < |At(ls, n, period).order|
    requires name != "" && IsLatest(Some(Text(name)), Heard(ls, n, At(ls, n, period).order[i]), Name)
    requires var s := At(ls, n, period);
      forall j :: i < j < |s.order| && s.order[j] in s.payloads ==> !Bears(s.payloads[s.order[j]], name)
    ensures var s := At(ls, n, period);
      Listed(s) && ShownAsFold(Snapshot(s.payloads, s.order), name, Heard(ls, n, s.order[i]))
  {
    var s := At(ls, n, period);
    var id := s.order[i];
    SnapshotIsFoldOfEverything(ls, n, period);
    PayloadsAreFolds(ls, n, period, id);
    OneLatest(Some(Text(name)), Lookup(s.payloads[id].values, Name), Heard(ls, n, id), Name);
    assert LastToBear(s.payloads, s.order, i, name);
  }

  lemma OneLatest(v: Option<Json>, w: Option<Json>, heard: seq<Input>, f: Field)
    requires IsLatest(v, heard, f) && IsLatest(w, heard, f)
    ensures v == w
  {
  }

  ghost predicate UniqueNames(payloads: map<nat, Payload>) {
    forall a, b, key :: a in payloads && b in payloads && a != b && Bears(payloads[a], key) ==> !Bears(payloads[b], key)
  }

  /** With unique names nothing is hidden: every status heard from is shown as its fold, under every
      name it bears, and it bears one. */
  lemma UniqueNamesShowAll(ls: seq<Input>, n: nat, period: real, id: nat)
    requires n <= |ls| && UniqueNames(At(ls, n, period).payloads) && Heard(ls, n, id) != []
    ensures var s := At(ls, n, period);
      && Listed(s) && id in s.payloads
      && (exists key :: Bears(s.payloads[id], key))
      && forall key :: Bears(s.payloads[id], key) ==>
           ShownAsFold(Snapshot(s.payloads, s.order), key, Heard(ls, n, id))
  {
    var s := At(ls, n, period);
    SnapshotIsFoldOfEverything(ls, n, period);
    var i :| 0 <= i < |s.order| && s.order[i] == id;
    forall key | Bears(s.payloads[id], key)
      ensures LastToBear(s.payloads, s.order, i, key)
    {
    }
    assert Bears(s.payloads[id], Key(s.payloads[id]));
  }

  /** The number a text of digits stands for. */
  function Value(digits: string): int {
    if digits == "" then 0
    else 10 * Value(digits[..|digits| - 1]) + (digits[|digits| - 1] as int - '0' as int)
  }

  lemma {:induction false} DecimalIsDecimal(n: nat)
    ensures Decimal(n) != "" && forall c <- Decimal(n) :: '0' <= c <= '9'
    ensures Value(Decimal(n)) == n
    ensures n > 0 ==> Decimal(n)[0] != '0'
  {
    DigitIsDigit(n % 10);
    if n < 10 {
      assert Decimal(n)[..0] == "";
    } else {
      DecimalIsDecimal(n / 10);
      ValueOfMore(Decimal(n / 10), Digit(n % 10));
    }
  }

  lemma DigitIsDigit(n: nat)
    requires n < 10
    ensures '0' <= Digit(n) <= '9' && Digit(n) as int - '0' as int == n && (n > 0 ==> Digit(n) != '0')
  {
  }

  lemma ValueOfMore(digits: string, c: char)
    ensures Value(digits + [c]) == 10 * Value(digits) + (c as int - '0' as int)
  {
    assert (digits + [c])[..|digits|] == digits;
  }

  /** Two unnamed statuses never go by the same name: it is "status_" and the number they got. */
  lemma OwnNamesDiffer(a: nat, b: nat)
    ensures OwnName(a) == OwnName(b) <==> a == b
    ensures OwnName(a).Text? && OwnName(a).s == "status_" + Decimal(a)
    ensures Value(Decimal(a)) == a
  {
    DecimalIsDecimal(a);
    DecimalIsDecimal(b);
    if OwnName(a) == OwnName(b) {
      assert OwnName(a).s[7..] == Decimal(a);
      assert OwnName(b).s[7..] == Decimal(b);
    }
  }

  // ---- when something is published --------------------------------------------------------------

  predicate Publishes(ls: seq<Input>, k: nat, period: real, id: nat)
    requires k < |ls|
  {
    ls[k].Update? && ls[k].id == id && EmitsAt(ls, k, period)
  }

  /** Input k is the last of the first n by which an update of the status was published. */
  ghost predicate LastPublished(ls: seq<Input>, n: nat, period: real, id: nat, k: int)
    requires n <= |ls|
  {
    && 0 <= k < n && Publishes(ls, k, period, id)
    && forall j :: k < j < n ==> !Publishes(ls, j, period, id)
  }

  /** An update that was published is the one whose time is kept; one that was not leaves it. */
  lemma SentByLast(ls: seq<Input>, n: nat, period: real, id: nat)
    requires n < |ls|
    ensures var s, t := At(ls, n, period), At(ls, n + 1, period);
      if Publishes(ls, n, period, id) then id in t.lastSent && t.lastSent[id] == ls[n].now
      else (id in t.lastSent <==> id in s.lastSent) && (id in s.lastSent ==> t.lastSent[id] == s.lastSent[id])
  {
  }

  /** The time kept for a status is that of its last published update, input k; none without one. */
  ghost predicate SentAt(ls: seq<Input>, n: nat, period: real, id: nat, k: int)
    requires n <= |ls|
  {
    var s := At(ls, n, period);
    if id in s.lastSent then LastPublished(ls, n, period, id, k) && s.lastSent[id] == ls[k].now
    else forall j :: 0 <= j < n ==> !Publishes(ls, j, period, id)
  }

  lemma SentGoesOn(ls: seq<Input>, n: nat, period: real, id: nat, k: int)
    requires n < |ls| && SentAt(ls, n, period, id, k)
    ensures SentAt(ls, n + 1, period, id, if Publishes(ls, n, period, id) then n else k)
  {
    SentByLast(ls, n, period, id);
  }

  lemma {:induction false} SentAtLastPublished(ls: seq<Input>, n: nat, period: real, id: nat) returns (k: int)
    requires n <= |ls|
    ensures SentAt(ls, n, period, id, k)
  {
    k := -1;
    if n > 0 {
      k := SentAtLastPublished(ls, n - 1, period, id);
      SentGoesOn(ls, n - 1, period, id, k);
      if Publishes(ls, n - 1, period, id) {
        k := n - 1;
      }
    }
  }

  lemma LastIsOne(ls: seq<Input>, n: nat, period: real, id: nat, j: int, k: int)
    requires n <= |ls| && LastPublished(ls, n, period, id, j) && LastPublished(ls, n, period, id, k)
    ensures j == k
  {
    assert Publishes(ls, j, period, id) && Publishes(ls, k, period, id);
  }

  /** An input publishes exactly when its status was not reported done before and it is itself a
      completion, says done, is the status' first to publish, or comes at least the minimal period
      after the last update of the same status that was published. */
  lemma PublishedExactlyWhen(ls: seq<Input>, i: nat, period: real)
    requires i < |ls|
    ensures EmitsAt(ls, i, period) <==>
      && !DoneBefore(ls, i, ls[i].id)
      && (SaysDone(ls[i])
          || forall k :: LastPublished(ls, i, period, ls[i].id, k) ==> ls[i].now - ls[k].now >= period)
  {
    var id := ls[i].id;
    FinishedExactlyWhen(ls, i, period, id);
    var k := SentAtLastPublished(ls, i, period, id);
    forall j | LastPublished(ls, i, period, id, j) && id in At(ls, i, period).lastSent
      ensures j == k
    {
      LastIsOne(ls, i, period, id, j, k);
    }
  }

  /** A status is done exactly when it completed, its update came with the status marked done, or a
      fraction of one or more was given, once. */
  lemma DoneExactlyWhen(ls: seq<Input>, n: nat, period: real, id: nat)
    requires n <= |ls|
    ensures var s := At(ls, n, period);
      (id in s.payloads && s.payloads[id].done) <==> exists k :: 0 <= k < n && ls[k].id == id && BringsDone(ls[k])
  {
    FinishedExactlyWhen(ls, n, period, id);
    if DoneBefore(ls, n, id) {
      var k :| 0 <= k < n && ls[k].id == id && SaysDone(ls[k]);
      assert BringsDone(ls[k]);
    }
    if exists k :: 0 <= k < n && ls[k].id == id && BringsDone(ls[k]) {
      var k :| 0 <= k < n && ls[k].id == id && BringsDone(ls[k]);
      assert SaysDone(ls[k]);
    }
  }

  ghost predicate BringsDone(l: Input) {
    l.Completion? || l.marked || exists x :: x >= 1.0 && Fraction in l.given && l.given[Fraction] == Number(x)
  }

  /** After a status was reported done nothing is published for it. */
  lemma NothingAfterDone(ls: seq<Input>, k: nat, i: nat, period: real)
    requires k < i < |ls| && ls[k].id == ls[i].id && SaysDone(ls[k])
    ensures !EmitsAt(ls, i, period)
    ensures At(ls, i + 1, period) == At(ls, i, period)
  {
    FinishedExactlyWhen(ls, i, period, ls[i].id);
    assert DoneBefore(ls, i, ls[i].id);
  }

  /** Any two published updates of one status, the later not saying done, are at least the minimal
      period apart. */
  lemma {:induction false} PublishedApart(ls: seq<Input>, i: nat, j: nat, period: real, id: nat)
    requires 0.0 <= period && i < j < |ls|
    requires Publishes(ls, i, period, id) && Publishes(ls, j, period, id) && !SaysDone(ls[j])
    ensures ls[j].now - ls[i].now >= period
    decreases j
  {
    var k := SentAtLastPublished(ls, j, period, id);
    if i < k {
      if SaysDone(ls[k]) {
        NothingAfterDone(ls, k, j, period);
      } else {
        PublishedApart(ls, i, k, period, id);
      }
    }
  }
}
