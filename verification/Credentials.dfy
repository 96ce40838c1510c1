/** The cache of AWS sessions and its background refresher.
  *
  * Times are nanoseconds; calls take no time.  `issued` is what STS knows: when each token really
  * runs out. */
module Credentials {
  import opened Text

  const SECOND := 1_000_000_000

  /** Refresh when this close to expiry. */
  const GRACE := 300 * SECOND

  /** How often the background loop scans. */
  const INTERVAL := 120 * SECOND

  datatype Key = Key(namespace: string, name: string, region: string)

  /** A token and the time recorded with it; None: the zero time, never refreshed. */
  datatype Entry = Entry(token: string, expiry: Option<int>)

  datatype Session = Session(token: string, expiry: int)

  /** `duration`: roleDurationSeconds as far as it reads as a number.  `role`, `mfa`: the sessions
    * written back into the secret, where their expiry reads as a time. */
  datatype Secret = Secret(
    roleArn: string, duration: Option<int>, role: Option<Session>,
    totp: bool, key: string, mfaDuration: Option<int>, mfa: Option<Session>)

  datatype World = World(
    now: int,
    cache: map<Key, Entry>,
    secrets: map<(string, string), Secret>,
    issued: map<string, int>)

  /** What one refresh meets: the read of the secret, for a role the resolution of its base
    * credentials, the token STS hands out, the write-back. */
  datatype Answer = Answer(get: bool, base: bool, sts: Option<string>, patch: bool)

  datatype Result = Got(token: string) | NotFound | Failed

  // ── Pure parts ───────────────────────────────────────────────────────────

  predicate NeedsRefresh(e: Entry, now: int) {
    e.expiry.Some? && now + GRACE > e.expiry.value
  }

  function ParseRoleDuration(d: Option<int>): (r: int)
    ensures r == 0 || 900 <= r <= 43200
  {
    if d.None? || d.value < 900 || d.value > 43200 then 0 else d.value
  }

  /** A number of seconds that AssumeRole accepts is taken as it is; anything else is an hour. */
  function RoleDuration(d: Option<int>): (r: int)
    ensures 900 <= r <= 43200
    ensures if d.Some? && 900 <= d.value <= 43200 then d == Some(r) else r == 3600
  {
    var p := ParseRoleDuration(d);
    if p <= 0 then 3600 else p
  }

  function MfaDuration(d: Option<int>): (r: int)
    ensures 900 <= r <= 129600
    ensures if d.Some? && 900 <= d.value <= 129600 then d == Some(r) else r == 43200
  {
    if d.Some? && 900 <= d.value <= 129600 then d.value else 43200
  }

  /** RFC 3339 without fractions. */
  function Stored(t: int): (r: int)
    ensures t - SECOND < r <= t
  {
    t / SECOND * SECOND
  }

  /** A session read back from a secret, unless it is near its end. */
  predicate Usable(s: Option<Session>, now: int) {
    s.Some? && s.value.token != "" && now + GRACE <= s.value.expiry
  }

  // ── refresh ──────────────────────────────────────────────────────────────

  function Cached(w: World, key: Key, e: Entry): World {
    w.(cache := w.cache[key := e])
  }

  function At(key: Key): (string, string) {
    (key.namespace, key.name)
  }

  /** Without a role: static keys, a session reused from the secret, or a fresh one. */
  function RefreshBase(w: World, key: Key, s: Secret, a: Answer): (World, Result) {
    if !s.totp then (Cached(w, key, Entry(s.key, None)), Got(s.key))
    else if Usable(s.mfa, w.now) then (Cached(w, key, Entry(s.mfa.value.token, None)), Got(s.mfa.value.token))
    else if a.sts.None? then (w, Failed)
    else
      var token, expiry := a.sts.value, w.now + MfaDuration(s.mfaDuration) * SECOND;
      var t := Cached(w.(issued := w.issued[token := expiry]), key, Entry(token, Some(expiry)));
      (if a.patch then t.(secrets := t.secrets[At(key) := s.(mfa := Some(Session(token, Stored(expiry))))]) else t,
       Got(token))
  }

  function RefreshRole(w: World, key: Key, s: Secret, a: Answer): (World, Result) {
    if Usable(s.role, w.now) then
      (Cached(w, key, Entry(s.role.value.token, Some(s.role.value.expiry))), Got(s.role.value.token))
    else if !a.base || a.sts.None? then (w, Failed)
    else
      var token, expiry := a.sts.value, w.now + RoleDuration(s.duration) * SECOND;
      var t := Cached(w.(issued := w.issued[token := expiry]), key, Entry(token, Some(expiry)));
      (if a.patch then t.(secrets := t.secrets[At(key) := s.(role := Some(Session(token, Stored(expiry))))]) else t,
       Got(token))
  }

  function Refresh(w: World, key: Key, a: Answer): (World, Result) {
    if !a.get then (w, Failed)
    else if At(key) !in w.secrets then (w, NotFound)
    else
      var s := w.secrets[At(key)];
      if s.roleArn != "" then RefreshRole(w, key, s, a) else RefreshBase(w, key, s, a)
  }

  function Get(w: World, key: Key, a: Answer): (World, Result) {
    if key in w.cache && !NeedsRefresh(w.cache[key], w.now) then (w, Got(w.cache[key].token))
    else Refresh(w, key, a)
  }

  // ── The refresher ────────────────────────────────────────────────────────

  type Answers = map<Key, Answer>

  const NOTHING := Answer(false, false, None, false)

  function AnswerFor(answers: Answers, key: Key): Answer {
    if key in answers then answers[key] else NOTHING
  }

  function RefreshOne(w: World, key: Key, a: Answer): World {
    var (t, r) := Refresh(w, key, a);
    if r == NotFound then t.(cache := t.cache - {key}) else t
  }

  function RefreshAll(w: World, order: seq<Key>, answers: Answers): World
    decreases |order|
  {
    if order == [] then w else RefreshAll(RefreshOne(w, order[0], AnswerFor(answers, order[0])), order[1..], answers)
  }

  /** The keys a scan picks, in some order. */
  ghost predicate Picks(w: World, order: seq<Key>) {
    && (forall key :: key in order <==> key in w.cache && NeedsRefresh(w.cache[key], w.now))
    && (forall i, j | 0 <= i < j < |order| :: order[i] != order[j])
  }

  function Evict(w: World, namespace: string, name: string): World {
    w.(cache := map k | k in w.cache && !(k.namespace == namespace && k.name == name) :: w.cache[k])
  }

  // ── The manager ──────────────────────────────────────────────────────────

  class CredentialManager {
    var cache: map<Key, Entry>
    var secrets: map<(string, string), Secret>
    var now: int
    ghost var issued: map<string, int>

    ghost function View(): World
      reads this
    {
      World(now, cache, secrets, issued)
    }

    constructor (secrets: map<(string, string), Secret>, now: int)
      ensures View() == World(now, map[], secrets, map[])
    {
      this.cache, this.secrets, this.now, this.issued := map[], secrets, now, map[];
    }

    method RefreshEntry(key: Key, a: Answer) returns (r: Result)
      modifies this
      ensures (View(), r) == Refresh(old(View()), key, a)
    {
      if !a.get {
        return Failed;
      }
      if At(key) !in secrets {
        return NotFound;
      }
      var secret := secrets[At(key)];
      if secret.roleArn != "" && Usable(secret.role, now) {
        cache := cache[key := Entry(secret.role.value.token, Some(secret.role.value.expiry))];
        return Got(secret.role.value.token);
      }
      if secret.roleArn == "" {
        r := CacheBase(key, secret, a);
        return;
      }
      if !a.base {
        return Failed;
      }
      var durSec := ParseRoleDuration(secret.duration);
      if durSec <= 0 {
        durSec := 3600;
      }
      if a.sts.None? {
        return Failed;
      }
      var session := Session(a.sts.value, now + durSec * SECOND);
      issued := issued[session.token := session.expiry];
      if a.patch {
        secrets := secrets[At(key) := secret.(role := Some(Session(session.token, Stored(session.expiry))))];
      }
      cache := cache[key := Entry(session.token, Some(session.expiry))];
      return Got(session.token);
    }

    method CacheBase(key: Key, secret: Secret, a: Answer) returns (r: Result)
      modifies this
      ensures (View(), r) == RefreshBase(old(View()), key, secret, a)
    {
      if !secret.totp {
        cache := cache[key := Entry(secret.key, None)];
        return Got(secret.key);
      }
      if Usable(secret.mfa, now) {
        cache := cache[key := Entry(secret.mfa.value.token, None)];
        return Got(secret.mfa.value.token);
      }
      if a.sts.None? {
        return Failed;
      }
      var session := Session(a.sts.value, now + MfaDuration(secret.mfaDuration) * SECOND);
      issued := issued[session.token := session.expiry];
      if a.patch {
        secrets := secrets[At(key) := secret.(mfa := Some(Session(session.token, Stored(session.expiry))))];
      }
      cache := cache[key := Entry(session.token, Some(session.expiry))];
      return Got(session.token);
    }

    method GetCredentials(key: Key, a: Answer) returns (r: Result)
      modifies this
      ensures (View(), r) == Get(old(View()), key, a)
    {
      if key in cache && !NeedsRefresh(cache[key], now) {
        return Got(cache[key].token);
      }
      r := RefreshEntry(key, a);
    }

    method EvictSecret(namespace: string, name: string)
      modifies this`cache
      ensures View() == Evict(old(View()), namespace, name)
    {
      var keys := cache.Keys;
      ghost var all := cache;
      while keys != {}
        invariant keys <= all.Keys
        invariant forall k :: k in cache <==>
          k in all && (k in keys || !(k.namespace == namespace && k.name == name))
        invariant forall k | k in cache :: cache[k] == all[k]
      {
        var k :| k in keys;
        if k.namespace == namespace && k.name == name {
          cache := cache - {k};
        }
        keys := keys - {k};
      }
    }

    method Expiring() returns (toRefresh: seq<Key>)
      ensures Picks(View(), toRefresh)
    {
      toRefresh := [];
      var keys := cache.Keys;
      while keys != {}
        invariant keys <= cache.Keys
        invariant forall k :: k in toRefresh <==> k in cache && k !in keys && NeedsRefresh(cache[k], now)
        invariant forall i, j | 0 <= i < j < |toRefresh| :: toRefresh[i] != toRefresh[j]
      {
        var k :| k in keys;
        if NeedsRefresh(cache[k], now) {
          toRefresh := toRefresh + [k];
        }
        keys := keys - {k};
      }
    }

    method RefreshExpiring(answers: Answers) returns (ghost order: seq<Key>)
      modifies this
      ensures Picks(old(View()), order)
      ensures View() == RefreshAll(old(View()), order, answers)
    {
      var toRefresh := Expiring();
      order := toRefresh;
      for i := 0 to |toRefresh|
        invariant RefreshAll(View(), toRefresh[i..], answers) == RefreshAll(old(View()), toRefresh, answers)
      {
        var key := toRefresh[i];
        assert toRefresh[i..][1..] == toRefresh[i + 1..] && toRefresh[i..][0] == key;
        var r := RefreshEntry(key, if key in answers then answers[key] else NOTHING);
        if r == NotFound {
          cache := cache - {key};
        }
      }
    }
  }

  // ── Role mode ────────────────────────────────────────────────────────────

  /** Every secret has a role, and no recorded time is later than the token really runs. */
  ghost predicate Truthful(w: World) {
    && (forall n | n in w.secrets :: w.secrets[n].roleArn != "")
    && (forall n | n in w.secrets && w.secrets[n].role.Some? && w.secrets[n].role.value.token != "" ::
          && w.secrets[n].role.value.token in w.issued
          && w.secrets[n].role.value.expiry <= w.issued[w.secrets[n].role.value.token])
    && (forall k | k in w.cache :: EntryTruthful(w, w.cache[k]))
  }

  ghost predicate EntryTruthful(w: World, e: Entry) {
    e.expiry.Some? && e.token in w.issued && e.expiry.value <= w.issued[e.token]
  }

  /** STS never hands a token out twice. */
  predicate FreshToken(w: World, a: Answer) {
    a.sts.Some? ==> a.sts.value !in w.issued
  }

  /** How long a token still runs. */
  predicate Left(w: World, token: string, d: int) {
    token in w.issued && w.issued[token] >= w.now + d
  }

  lemma RefreshTruthful(w: World, key: Key, a: Answer)
    requires Truthful(w) && FreshToken(w, a)
    ensures
      var (t, r) := Refresh(w, key, a);
      && Truthful(t) && t.now == w.now
      && (r.Got? ==> Left(t, r.token, GRACE) && key in t.cache && t.cache[key].token == r.token)
      && (r.Got? ==> !NeedsRefresh(t.cache[key], t.now))
      && (forall k | k in w.cache && k != key :: k in t.cache && t.cache[k] == w.cache[k])
      && t.cache.Keys <= w.cache.Keys + {key}
  {
  }

  /** A credential handed out has at least five minutes left, whether it comes from the cache, from
    * the secret or from STS. */
  lemma GetLeavesGrace(w: World, key: Key, a: Answer)
    requires Truthful(w) && FreshToken(w, a)
    ensures
      var (t, r) := Get(w, key, a);
      Truthful(t) && t.now == w.now && (r.Got? ==> Left(t, r.token, GRACE))
  {
    RefreshTruthful(w, key, a);
  }

  /** A cached credential with at least five minutes left, or with no expiry, is answered as it is, and nothing
    * changes, whatever the API server and STS would have answered. */
  lemma CachedIsServed(w: World, key: Key, a: Answer)
    requires key in w.cache
    requires w.cache[key].expiry.None? || w.cache[key].expiry.value - w.now >= 300 * SECOND
    ensures Get(w, key, a) == (w, Got(w.cache[key].token))
  {
  }

  /** A session in the secret with at least five minutes left is taken over without STS: whatever STS and the
    * write-back would have answered, only the cache changes, to that session. */
  lemma StoredSessionIsServed(w: World, key: Key, a: Answer)
    requires a.get && At(key) in w.secrets
    ensures
      var s := w.secrets[At(key)];
      && (s.roleArn != "" && s.role.Some? && s.role.value.token != ""
            && s.role.value.expiry - w.now >= 300 * SECOND ==>
            Refresh(w, key, a) ==
              (w.(cache := w.cache[key := Entry(s.role.value.token, Some(s.role.value.expiry))]),
               Got(s.role.value.token)))
      && (s.roleArn == "" && s.totp && s.mfa.Some? && s.mfa.value.token != ""
            && s.mfa.value.expiry - w.now >= 300 * SECOND ==>
            Refresh(w, key, a) ==
              (w.(cache := w.cache[key := Entry(s.mfa.value.token, None)]), Got(s.mfa.value.token)))
      && (s.roleArn == "" && !s.totp ==>
            Refresh(w, key, a) == (w.(cache := w.cache[key := Entry(s.key, None)]), Got(s.key)))
  {
  }

  /** A new session is cached and, when the write-back succeeds, stored in the secret for the next controller, with
    * the second its expiry falls into. */
  lemma NewRoleSessionIsStored(w: World, key: Key, token: string, patch: bool)
    requires At(key) in w.secrets && w.secrets[At(key)].roleArn != ""
    requires var r := w.secrets[At(key)].role; r.None? || r.value.token == "" || r.value.expiry - w.now < 300 * SECOND
    ensures
      var (t, r) := Refresh(w, key, Answer(true, true, Some(token), patch));
      var s := w.secrets[At(key)];
      var expiry := w.now + RoleDuration(s.duration) * SECOND;
      && r == Got(token) && t.now == w.now
      && t.cache == w.cache[key := Entry(token, Some(expiry))] && t.issued == w.issued[token := expiry]
      && t.secrets == if !patch then w.secrets else
           w.secrets[At(key) := s.(role := Some(Session(token, expiry / SECOND * SECOND)))]
  {
  }

  /** The same for a session got with a one-time code. */
  lemma NewMfaSessionIsStored(w: World, key: Key, token: string, base: bool, patch: bool)
    requires At(key) in w.secrets && w.secrets[At(key)].roleArn == "" && w.secrets[At(key)].totp
    requires var m := w.secrets[At(key)].mfa; m.None? || m.value.token == "" || m.value.expiry - w.now < 300 * SECOND
    ensures
      var (t, r) := Refresh(w, key, Answer(true, base, Some(token), patch));
      var s := w.secrets[At(key)];
      var expiry := w.now + MfaDuration(s.mfaDuration) * SECOND;
      && r == Got(token) && t.now == w.now
      && t.cache == w.cache[key := Entry(token, Some(expiry))] && t.issued == w.issued[token := expiry]
      && t.secrets == if !patch then w.secrets else
           w.secrets[At(key) := s.(mfa := Some(Session(token, expiry / SECOND * SECOND)))]
  {
  }

  /** Evicting a secret takes out exactly its entries, whatever their region, and nothing else changes. */
  lemma EvictIff(w: World, namespace: string, name: string)
    ensures
      var t := Evict(w, namespace, name);
      && (forall k :: k in t.cache <==> k in w.cache && !(k.namespace == namespace && k.name == name))
      && (forall k | k in t.cache :: t.cache[k] == w.cache[k])
      && t.secrets == w.secrets && t.now == w.now && t.issued == w.issued
  {
  }

  // ── With the refresher at work ───────────────────────────────────────────

  /** Every cached session runs for at least `d` more. */
  ghost predicate AllLeft(w: World, d: int) {
    forall k | k in w.cache :: w.cache[k].expiry.Some? && w.cache[k].expiry.value >= w.now + d
  }

  /** All refreshes of a scan succeed, or find their secret gone; tokens are fresh at each. */
  ghost predicate ScanSucceeds(w: World, order: seq<Key>, answers: Answers)
    decreases |order|
  {
    order == [] ||
    var a := AnswerFor(answers, order[0]);
    FreshToken(w, a) && !Refresh(w, order[0], a).1.Failed?
      && ScanSucceeds(RefreshOne(w, order[0], a), order[1..], answers)
  }

  lemma {:induction false} ScanRefreshes(w: World, order: seq<Key>, answers: Answers)
    requires Truthful(w) && ScanSucceeds(w, order, answers)
    requires forall k | k in w.cache && k !in order :: !NeedsRefresh(w.cache[k], w.now)
    ensures Truthful(RefreshAll(w, order, answers)) && RefreshAll(w, order, answers).now == w.now
    ensures AllLeft(RefreshAll(w, order, answers), GRACE)
    decreases |order|
  {
    if order != [] {
      var key, a := order[0], AnswerFor(answers, order[0]);
      RefreshTruthful(w, key, a);
      var t := RefreshOne(w, key, a);
      forall k | k in t.cache && k !in order[1..]
        ensures !NeedsRefresh(t.cache[k], t.now)
      {
        if k != key {
          assert k !in order;
        }
      }
      ScanRefreshes(t, order[1..], answers);
    }
  }

  datatype Event =
    | Fetch(key: Key, answer: Answer)
    | Tick(order: seq<Key>, answers: Answers)
    | Drop(namespace: string, name: string)
    | Wait(d: nat)

  function Next(w: World, e: Event): World {
    match e
    case Fetch(key, a) => Get(w, key, a).0
    case Tick(order, answers) => RefreshAll(w, order, answers)
    case Drop(namespace, name) => Evict(w, namespace, name)
    case Wait(d) => w.(now := w.now + d)
  }

  /** When no secret can be read, a cached token is still answered after any wait, up to five minutes before it
    * expires and no longer. */
  lemma OutageShowsIff(w: World, key: Key, d: nat)
    requires key in w.cache
    ensures
      var t, e := Next(w, Wait(d)), w.cache[key];
      && Get(t, key, NOTHING).0 == t && t.cache == w.cache && t.secrets == w.secrets
      && Get(t, key, NOTHING).1 ==
           if e.expiry.Some? && e.expiry.value - (w.now + d) < 300 * SECOND then Failed else Got(e.token)
  {
  }

  /** A scan's order lists every entry that is within the grace, once, and nothing else. */
  lemma PicksOnce(w: World, order: seq<Key>)
    requires Picks(w, order)
    ensures multiset(order) ==
      multiset(set k | k in w.cache && w.cache[k].expiry.Some? && w.cache[k].expiry.value - w.now < 300 * SECOND)
  {
    var due := set k | k in w.cache && w.cache[k].expiry.Some? && w.cache[k].expiry.value - w.now < 300 * SECOND;
    forall k
      ensures multiset(order)[k] == multiset(due)[k]
    {
      Distinct(order, k);
      assert k in order <==> k in due;
    }
  }

  lemma {:induction false} Distinct(order: seq<Key>, k: Key)
    requires forall i, j | 0 <= i < j < |order| :: order[i] != order[j]
    ensures multiset(order)[k] == if k in order then 1 else 0
    decreases |order|
  {
    if order != [] {
      Distinct(order[1..], k);
      assert order == [order[0]] + order[1..];
      assert k in order <==> k == order[0] || k in order[1..];
      assert k == order[0] ==> k !in order[1..];
    }
  }

  /** Ticks are at most an interval apart and each succeeds; `last`: the time of the last one. */
  ghost predicate Steady(w: World, last: int, e: Event) {
    match e
    case Fetch(_, a) => FreshToken(w, a)
    case Tick(order, answers) => Picks(w, order) && ScanSucceeds(w, order, answers)
    case Drop(_, _) => true
    case Wait(d) => w.now + d <= last + INTERVAL
  }

  function LastTick(w: World, last: int, e: Event): int {
    if e.Tick? then w.now else last
  }

  ghost predicate SteadyRun(w: World, last: int, es: seq<Event>)
    decreases |es|
  {
    es == [] || (Steady(w, last, es[0]) && SteadyRun(Next(w, es[0]), LastTick(w, last, es[0]), es[1..]))
  }

  function Run(w: World, es: seq<Event>): World
    decreases |es|
  {
    if es == [] then w else Run(Next(w, es[0]), es[1..])
  }

  /** Every cached session outlives the last tick by the grace. */
  ghost predicate Covered(w: World, last: int) {
    && Truthful(w) && last <= w.now <= last + INTERVAL
    && forall k | k in w.cache :: w.cache[k].expiry.value >= last + GRACE
  }

  lemma FetchKeepsCovered(w: World, last: int, key: Key, a: Answer)
    requires Covered(w, last) && FreshToken(w, a)
    ensures Covered(Get(w, key, a).0, last)
  {
    RefreshTruthful(w, key, a);
  }

  lemma DropKeepsCovered(w: World, last: int, namespace: string, name: string)
    requires Covered(w, last)
    ensures Covered(Evict(w, namespace, name), last)
  {
  }

  lemma KeepCovered(w: World, last: int, e: Event)
    requires Covered(w, last) && Steady(w, last, e)
    ensures Covered(Next(w, e), LastTick(w, last, e))
  {
    match e
    case Fetch(key, a) => FetchKeepsCovered(w, last, key, a);
    case Tick(order, answers) => ScanRefreshes(w, order, answers);
    case Drop(namespace, name) => DropKeepsCovered(w, last, namespace, name);
    case Wait(_) =>
  }

  /** While the refresher ticks every two minutes and succeeds, no cached session ever has less than
    * three minutes left, however gets, evictions and waits mix with the ticks. */
  lemma {:induction false} NeverBelowThreeMinutes(w: World, last: int, es: seq<Event>)
    requires Covered(w, last) && SteadyRun(w, last, es)
    ensures
      var t := Run(w, es);
      && AllLeft(t, GRACE - INTERVAL) && GRACE - INTERVAL == 180 * SECOND
      && forall k | k in t.cache :: Left(t, t.cache[k].token, GRACE - INTERVAL)
    decreases |es|
  {
    if es != [] {
      KeepCovered(w, last, es[0]);
      NeverBelowThreeMinutes(Next(w, es[0]), LastTick(w, last, es[0]), es[1..]);
    }
  }

  /** STS hands out new tokens only; nothing else is asked of the run. */
  ghost predicate ScanFresh(w: World, order: seq<Key>, answers: Answers)
    decreases |order|
  {
    order == [] ||
    var a := AnswerFor(answers, order[0]);
    FreshToken(w, a) && ScanFresh(RefreshOne(w, order[0], a), order[1..], answers)
  }

  ghost predicate FreshRun(w: World, es: seq<Event>)
    decreases |es|
  {
    es != [] ==>
      && (es[0].Fetch? ==> FreshToken(w, es[0].answer))
      && (es[0].Tick? ==> ScanFresh(w, es[0].order, es[0].answers))
      && FreshRun(Next(w, es[0]), es[1..])
  }

  lemma {:induction false} ScanTruthful(w: World, order: seq<Key>, answers: Answers)
    requires Truthful(w) && ScanFresh(w, order, answers)
    ensures Truthful(RefreshAll(w, order, answers))
    decreases |order|
  {
    if order != [] {
      RefreshTruthful(w, order[0], AnswerFor(answers, order[0]));
      ScanTruthful(RefreshOne(w, order[0], AnswerFor(answers, order[0])), order[1..], answers);
    }
  }

  /** After any run, with any refreshes failing and any time passing, a credential handed out in role
    * mode still has five minutes left. */
  lemma {:induction false} EveryGetLeavesGrace(w: World, es: seq<Event>, key: Key, a: Answer)
    requires Truthful(w) && FreshRun(w, es) && FreshToken(Run(w, es), a)
    ensures
      var (t, r) := Get(Run(w, es), key, a);
      r.Got? ==> Left(t, r.token, GRACE)
    decreases |es|
  {
    if es == [] {
      GetLeavesGrace(w, key, a);
    } else {
      var e := es[0];
      match e {
        case Fetch(k, b) => RefreshTruthful(w, k, b);
        case Tick(order, answers) => ScanTruthful(w, order, answers);
        case _ =>
      }
      EveryGetLeavesGrace(Next(w, e), es[1..], key, a);
    }
  }

  // ── Without a role ───────────────────────────────────────────────────────

  /** In MFA mode a session taken over from the secret is cached as one that never expires; only a
    * session obtained just now is cached with its end. */
  lemma CachedWithExpiryIff(w: World, key: Key, a: Answer)
    requires a.get && At(key) in w.secrets
    requires w.secrets[At(key)].roleArn == "" && Refresh(w, key, a).1.Got?
    ensures
      var s := w.secrets[At(key)];
      Refresh(w, key, a).0.cache[key].expiry.Some? <==> s.totp && !Usable(s.mfa, w.now)
  {
  }

  /** Such a session is handed out for ever, whatever happens at STS. */
  lemma ReusedSessionOutlivesItself(w: World, key: Key, a: Answer, b: Answer, d: nat)
    requires a.get && At(key) in w.secrets
    requires w.secrets[At(key)].roleArn == "" && w.secrets[At(key)].totp && Usable(w.secrets[At(key)].mfa, w.now)
    requires d > w.secrets[At(key)].mfa.value.expiry - w.now
    ensures
      var t := Refresh(w, key, a).0.(now := w.now + d);
      Get(t, key, b) == (t, Got(w.secrets[At(key)].mfa.value.token)) && t.now > w.secrets[At(key)].mfa.value.expiry
  {
  }
}
