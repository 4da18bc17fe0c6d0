/** The cache of discovery documents and signing keys in front of the identity
    provider, as steps over clock readings, and what every sequential run keeps. */
module KeyCache {
  import opened Wrappers

  type Uri = string
  type Kid = string
  type Document = string

  datatype PublicKey = PublicKey(modulus: nat, exponent: nat)

  /** Nanoseconds. */
  type Instant = int

  const SECOND: int := 1_000_000_000
  const CACHE_TTL: int := 15 * 60 * SECOND
  const MIN_KEY_REFRESH: int := 30 * SECOND
  const STALE_GRACE: int := 6 * 60 * 60 * SECOND

  type KeySet = map<Kid, PublicKey>

  datatype CachedKeys = CachedKeys(value: KeySet, at: Instant, attempted: Instant)

  datatype CachedDiscovery = CachedDiscovery(value: Document, at: Instant)

  /** The outcome of a network read, chosen by the world. */
  datatype CacheError = KeyNotFound | FetchFailed(reason: string)

  /** The clock readings of one call, in order: the two age tests, the start of the
      fetch, the two readings when it is stored, and the age test after a failure. */
  datatype Readings = Readings(first: Instant, second: Instant, begin: Instant, stored: Instant, tried: Instant, checked: Instant)

  predicate InOrder(c: Readings) {
    c.first <= c.second <= c.begin <= c.stored <= c.tried <= c.checked
  }

  // ----- Signing keys -----

  function Lookup(keys: KeySet, kid: Kid): Result<PublicKey, CacheError> {
    if kid in keys then Ok(keys[kid]) else Err(KeyNotFound)
  }

  /** The answer from the cache alone, or None when a fetch is due. */
  function Answer(entry: Option<CachedKeys>, kid: Kid, c: Readings): Option<Result<PublicKey, CacheError>> {
    if entry.None? then None
    else if kid in entry.value.value && c.first - entry.value.at < CACHE_TTL then Some(Ok(entry.value.value[kid]))
    else if c.second - entry.value.attempted < MIN_KEY_REFRESH then Some(Lookup(entry.value.value, kid))
    else None
  }

  /** The entry a fetch leaves behind; a failure keeps what the call had read before
      it, which is nothing dated at zero for a URI never seen. */
  function Remember(entry: Option<CachedKeys>, c: Readings, fetched: Result<KeySet, string>): CachedKeys {
    match fetched
    case Ok(keys) => CachedKeys(keys, c.stored, c.tried)
    case Err(_) => (if entry.Some? then entry.value else CachedKeys(map[], 0, 0)).(attempted := c.stored)
  }

  function AfterFetch(entry: Option<CachedKeys>, kid: Kid, c: Readings, fetched: Result<KeySet, string>):
    Result<PublicKey, CacheError> {
    match fetched
    case Ok(keys) => Lookup(keys, kid)
    case Err(reason) =>
      if entry.Some? && kid in entry.value.value && c.checked - entry.value.at < STALE_GRACE
      then Ok(entry.value.value[kid]) else Err(FetchFailed(reason))
  }

  function EntryAt<V>(table: map<Uri, V>, id: Uri): Option<V> {
    if id in table then Some(table[id]) else None
  }

  /** One call for a key; fetched is what the network would answer. */
  datatype Call = Call(uri: Uri, kid: Kid, c: Readings, fetched: Result<KeySet, string>)

  datatype Event = KeyCall(call: Call) | Reset

  /** A fetch that was made: when it began, when it was recorded as tried, when its
      keys were dated, and what it brought. */
  datatype Fetch = Fetch(uri: Uri, begin: Instant, dated: Instant, tried: Instant, keys: Option<KeySet>)

  /** The cached keys and the fetches made since the last reset. */
  datatype State = State(keys: map<Uri, CachedKeys>, log: seq<Fetch>)

  predicate Fetches(s: State, call: Call) {
    Answer(EntryAt(s.keys, call.uri), call.kid, call.c).None?
  }

  function FetchOf(call: Call): Fetch {
    if call.fetched.Ok? then Fetch(call.uri, call.c.begin, call.c.stored, call.c.tried, Some(call.fetched.value))
    else Fetch(call.uri, call.c.begin, call.c.stored, call.c.stored, None)
  }

  function ResultOf(s: State, call: Call): Result<PublicKey, CacheError> {
    var entry := EntryAt(s.keys, call.uri);
    var answer := Answer(entry, call.kid, call.c);
    if answer.Some? then answer.value else AfterFetch(entry, call.kid, call.c, call.fetched)
  }

  function Step(s: State, event: Event): State {
    match event
    case Reset => State(map[], [])
    case KeyCall(call) =>
      if Fetches(s, call) then
        State(s.keys[call.uri := Remember(EntryAt(s.keys, call.uri), call.c, call.fetched)], s.log + [FetchOf(call)])
      else s
  }

  function Run(run: seq<Event>): State {
    if run == [] then State(map[], []) else Step(Run(run[..|run| - 1]), run[|run| - 1])
  }

  /** The last reading of a run, starting from some instant before it. */
  function End(run: seq<Event>, start: Instant): Instant {
    if run == [] then start
    else match run[|run| - 1]
      case KeyCall(call) => call.c.checked
      case Reset => End(run[..|run| - 1], start)
  }

  /** Calls do not overlap and the clock does not go back. */
  ghost predicate Sequential(run: seq<Event>, start: Instant) {
    run != [] ==>
      && Sequential(run[..|run| - 1], start)
      && var last := run[|run| - 1];
         last.KeyCall? ==> InOrder(last.call.c) && End(run[..|run| - 1], start) <= last.call.c.first
  }

  /** The latest fetch of a URI that succeeded, and the latest of any kind. */
  function LastGood(log: seq<Fetch>, uri: Uri): (good: Option<Fetch>)
    ensures good.Some? ==> good.value in log && good.value.uri == uri && good.value.keys.Some?
  {
    if log == [] then None
    else if log[|log| - 1].uri == uri && log[|log| - 1].keys.Some? then Some(log[|log| - 1])
    else LastGood(log[..|log| - 1], uri)
  }

  function LastTry(log: seq<Fetch>, uri: Uri): Option<Fetch> {
    if log == [] then None
    else if log[|log| - 1].uri == uri then Some(log[|log| - 1])
    else LastTry(log[..|log| - 1], uri)
  }

  /** The entry is what the latest fetches of its URI say. */
  ghost predicate Reflects(s: State, uri: Uri) {
    var good, tried := LastGood(s.log, uri), LastTry(s.log, uri);
    && (uri in s.keys <==> tried.Some?)
    && (good.Some? ==> tried.Some?)
    && (uri in s.keys ==>
          && s.keys[uri].attempted == tried.value.tried
          && s.keys[uri].value == (if good.Some? then good.value.keys.value else map[])
          && (good.Some? ==> s.keys[uri].at == good.value.dated))
  }

  ghost predicate Spaced(log: seq<Fetch>) {
    forall i, j | 0 <= i < j < |log| && log[i].uri == log[j].uri :: log[j].begin - log[i].tried >= MIN_KEY_REFRESH
  }

  /** A URI's fetches are tried no later than its latest one. */
  ghost predicate TriedInOrder(log: seq<Fetch>) {
    && (forall i | 0 <= i < |log| :: log[i].begin <= log[i].tried)
    && (forall i, j | 0 <= i < j < |log| :: log[i].tried <= log[j].begin)
  }

  lemma {:induction false} LastTryIsLast(log: seq<Fetch>, uri: Uri, i: nat)
    requires TriedInOrder(log) && i < |log| && log[i].uri == uri
    ensures LastTry(log, uri).Some? && log[i].tried <= LastTry(log, uri).value.tried
  {
    var n := |log| - 1;
    if log[n].uri != uri {
      LastTryIsLast(log[..n], uri, i);
    } else if i < n {
      assert log[i].tried <= log[n].begin;
    }
  }

  ghost predicate Inv(s: State, now: Instant) {
    && (forall uri :: Reflects(s, uri))
    && Spaced(s.log) && TriedInOrder(s.log)
    && (forall i | 0 <= i < |s.log| :: s.log[i].tried <= now)
  }

  lemma StepReflects(s: State, call: Call, uri: Uri)
    requires Reflects(s, uri) && Reflects(s, call.uri) && Fetches(s, call)
    ensures Reflects(Step(s, KeyCall(call)), uri)
  {
    var after := Step(s, KeyCall(call));
    assert after.log[..|s.log|] == s.log;
  }

  lemma StepSpaces(s: State, call: Call, now: Instant)
    requires Inv(s, now) && Fetches(s, call) && InOrder(call.c) && now <= call.c.first
    ensures Spaced(Step(s, KeyCall(call)).log)
  {
    var n := |s.log|;
    var after := Step(s, KeyCall(call)).log;
    forall i | 0 <= i < n && s.log[i].uri == call.uri
      ensures call.c.begin - s.log[i].tried >= MIN_KEY_REFRESH
    {
      LastTryIsLast(s.log, call.uri, i);
      assert Reflects(s, call.uri);
    }
  }

  lemma {:induction false} RunKeepsInv(run: seq<Event>, start: Instant)
    requires Sequential(run, start)
    ensures Inv(Run(run), End(run, start))
  {
    if run != [] {
      var before, last := run[..|run| - 1], run[|run| - 1];
      RunKeepsInv(before, start);
      if last.KeyCall? && Fetches(Run(before), last.call) {
        forall uri
          ensures Reflects(Run(run), uri)
        {
          assert Reflects(Run(before), uri) && Reflects(Run(before), last.call.uri);
          StepReflects(Run(before), last.call, uri);
        }
        StepSpaces(Run(before), last.call, End(before, start));
      }
    }
  }

  /** Two fetches of one URI between resets begin at least thirty seconds apart. */
  lemma {:induction false} FetchesAreSpaced(run: seq<Event>, start: Instant, i: nat, j: nat)
    requires Sequential(run, start)
    requires i < j < |Run(run).log| && Run(run).log[i].uri == Run(run).log[j].uri
    ensures Run(run).log[j].begin - Run(run).log[i].begin >= MIN_KEY_REFRESH
  {
    RunKeepsInv(run, start);
  }

  /** Within fifteen minutes of the fetch that brought a key, asking for it again
      answers it and fetches nothing. */
  lemma {:induction false} FreshKeyNeedsNoFetch(run: seq<Event>, start: Instant, call: Call)
    requires Sequential(run + [KeyCall(call)], start)
    requires var good := LastGood(Run(run).log, call.uri);
             good.Some? && call.kid in good.value.keys.value
             && call.c.first - good.value.dated < CACHE_TTL
    ensures !Fetches(Run(run), call)
    ensures ResultOf(Run(run), call) == Ok(LastGood(Run(run).log, call.uri).value.keys.value[call.kid])
  {
    OneMoreCall(run, call, start);
    RunKeepsInv(run, start);
    assert Reflects(Run(run), call.uri);
  }

  /** Whatever key is returned is the entry for its kid of the latest successful fetch
      of that URI, this call's own fetch included. */
  lemma {:induction false} ReturnedKeyIsLatest(run: seq<Event>, start: Instant, call: Call)
    requires Sequential(run + [KeyCall(call)], start)
    requires ResultOf(Run(run), call).Ok?
    ensures var good := LastGood(Step(Run(run), KeyCall(call)).log, call.uri);
            good.Some? && call.kid in good.value.keys.value
            && ResultOf(Run(run), call).value == good.value.keys.value[call.kid]
  {
    OneMoreCall(run, call, start);
    RunKeepsInv(run, start);
    assert Reflects(Run(run), call.uri);
    if Fetches(Run(run), call) {
      StepReflects(Run(run), call, call.uri);
    }
  }

  /** After a failed fetch a key is answered only while its own fetch is less than six
      hours old. */
  lemma {:induction false} StaleKeyIsBounded(run: seq<Event>, start: Instant, call: Call)
    requires Sequential(run + [KeyCall(call)], start)
    requires Fetches(Run(run), call) && call.fetched.Err? && ResultOf(Run(run), call).Ok?
    ensures var good := LastGood(Run(run).log, call.uri); good.Some? && call.c.checked - good.value.dated < STALE_GRACE
  {
    OneMoreCall(run, call, start);
    RunKeepsInv(run, start);
    assert Reflects(Run(run), call.uri);
  }

  /** The latest attempt on the URI failed, less than thirty seconds before. */
  predicate HeldBack(log: seq<Fetch>, call: Call) {
    var last := LastTry(log, call.uri);
    last.Some? && last.value.keys.None? && call.c.second - last.value.tried < MIN_KEY_REFRESH
  }

  /** The clock reading at which a call is answered. */
  function DecidedAt(s: State, call: Call): Instant {
    if Fetches(s, call) then call.c.checked
    else if call.kid in s.keys[call.uri].value && call.c.first - s.keys[call.uri].at < CACHE_TTL then call.c.first
    else call.c.second
  }

  predicate FetchesNow(s: State, call: Call) {
    Fetches(s, call) && call.fetched.Ok?
  }

  lemma {:induction false} LastTryFailedOrIsGood(log: seq<Fetch>, uri: Uri)
    ensures LastTry(log, uri).Some? ==> LastTry(log, uri).value.keys.None? || LastGood(log, uri) == LastTry(log, uri)
  {
    if log != [] {
      LastTryFailedOrIsGood(log[..|log| - 1], uri);
    }
  }

  /** Every key answered is just fetched, or under six hours old when it is answered,
      or the call is held back after a failed attempt. */
  lemma {:induction false} AnsweredKeyAge(run: seq<Event>, start: Instant, call: Call)
    requires Sequential(run + [KeyCall(call)], start) && ResultOf(Run(run), call).Ok?
    ensures || FetchesNow(Run(run), call)
            || HeldBack(Run(run).log, call)
            || (var good := LastGood(Run(run).log, call.uri);
                good.Some? && DecidedAt(Run(run), call) - good.value.tried < STALE_GRACE)
  {
    OneMoreCall(run, call, start);
    RunKeepsInv(run, start);
    DatedBeforeTried(run, start);
    LastTryFailedOrIsGood(Run(run).log, call.uri);
    assert Reflects(Run(run), call.uri);
  }

  /** And an older key is answered exactly when the call is held back. */
  lemma {:induction false} OldKeyAnsweredIff(run: seq<Event>, start: Instant, call: Call)
    requires Sequential(run + [KeyCall(call)], start) && !FetchesNow(Run(run), call)
    requires var good := LastGood(Run(run).log, call.uri);
             good.Some? && call.kid in good.value.keys.value && call.c.first - good.value.tried >= STALE_GRACE
    ensures ResultOf(Run(run), call).Ok? <==> HeldBack(Run(run).log, call)
  {
    OneMoreCall(run, call, start);
    RunKeepsInv(run, start);
    DatedBeforeTried(run, start);
    LastTryFailedOrIsGood(Run(run).log, call.uri);
    assert Reflects(Run(run), call.uri);
  }

  lemma {:induction false} DatedBeforeTried(run: seq<Event>, start: Instant)
    requires Sequential(run, start)
    ensures forall fetch | fetch in Run(run).log :: fetch.dated <= fetch.tried
  {
    if run != [] {
      DatedBeforeTried(run[..|run| - 1], start);
    }
  }

  /** The key that the latest successful fetch brought for this kid, if it did. */
  function Known(good: Option<Fetch>, kid: Kid): Option<PublicKey>
    requires good.Some? ==> good.value.keys.Some?
  {
    if good.Some? && kid in good.value.keys.value then Some(good.value.keys.value[kid]) else None
  }

  /** What every call does, said on the fetches made so far: it fetches unless the key
      was dated less than fifteen minutes before or the URI was tried less than thirty
      seconds before. A call that does not fetch answers the key known, if any. One that
      fetches answers from what it brought, or if that failed the key known, for six
      hours. */
  lemma {:induction false} CallByLog(run: seq<Event>, start: Instant, call: Call)
    requires Sequential(run + [KeyCall(call)], start)
    ensures var good, tried := LastGood(Run(run).log, call.uri), LastTry(Run(run).log, call.uri);
            var known := Known(good, call.kid);
            && (!Fetches(Run(run), call)
                <==> || (known.Some? && call.c.first - good.value.dated < CACHE_TTL)
                     || (tried.Some? && call.c.second - tried.value.tried < MIN_KEY_REFRESH))
            && ResultOf(Run(run), call)
               == if !Fetches(Run(run), call) then (if known.Some? then Ok(known.value) else Err(KeyNotFound))
                  else match call.fetched
                    case Ok(keys) => if call.kid in keys then Ok(keys[call.kid]) else Err(KeyNotFound)
                    case Err(reason) =>
                      if known.Some? && call.c.checked - good.value.dated < STALE_GRACE then Ok(known.value)
                      else Err(FetchFailed(reason))
  {
    OneMoreCall(run, call, start);
    RunKeepsInv(run, start);
    assert Reflects(Run(run), call.uri);
  }

  /** Held back, a key of any age is answered. */
  lemma HeldBackKeyHasNoAgeBound(uri: Uri, kid: Kid, key: PublicKey, reason: string, age: int)
    requires age >= CACHE_TTL
    ensures exists run, call ::
              && Sequential(run + [KeyCall(call)], 0) && !Fetches(Run(run), call) && ResultOf(Run(run), call) == Ok(key)
              && LastGood(Run(run).log, uri).Some? && call.c.first - LastGood(Run(run).log, uri).value.dated > age
  {
    var good := Call(uri, kid, At(0), Ok(map[kid := key]));
    var bad := Call(uri, kid, At(age), Err(reason));
    var call := Call(uri, kid, At(age + 1), Err(reason));
    var run := [KeyCall(good)] + [KeyCall(bad)];
    OneMoreCall([], good, 0);
    OneMoreCall([KeyCall(good)], bad, 0);
    OneMoreCall(run, call, 0);
    assert [] + [KeyCall(good)] == [KeyCall(good)];
    FirstFetch(good);
    FailedRefetch(Run([KeyCall(good)]), bad);
    LastGoodAfterFailure([FetchOf(good)], FetchOf(bad), uri);
  }

  lemma FirstFetch(call: Call)
    requires call.fetched.Ok?
    ensures Step(State(map[], []), KeyCall(call))
         == State(map[call.uri := CachedKeys(call.fetched.value, call.c.stored, call.c.tried)], [FetchOf(call)])
    ensures LastGood([FetchOf(call)], call.uri) == Some(FetchOf(call))
  {
  }

  lemma FailedRefetch(s: State, call: Call)
    requires call.fetched.Err? && Fetches(s, call) && call.uri in s.keys
    ensures Step(s, KeyCall(call))
         == State(s.keys[call.uri := s.keys[call.uri].(attempted := call.c.stored)], s.log + [FetchOf(call)])
  {
  }

  function At(t: Instant): Readings {
    Readings(t, t, t, t, t, t)
  }

  lemma {:induction false} OneMoreCall(run: seq<Event>, call: Call, start: Instant)
    ensures Run(run + [KeyCall(call)]) == Step(Run(run), KeyCall(call))
    ensures End(run + [KeyCall(call)], start) == call.c.checked
    ensures Sequential(run + [KeyCall(call)], start)
       <==> Sequential(run, start) && InOrder(call.c) && End(run, start) <= call.c.first
  {
  }

  lemma {:induction false} LastGoodAfterFailure(log: seq<Fetch>, bad: Fetch, uri: Uri)
    requires bad.keys.None?
    ensures LastGood(log + [bad], uri) == LastGood(log, uri)
  {
  }

  // ----- Calls that overlap -----

  /** The second half of a call that fetches: it stores over whatever is there now,
      going by the entry it read in its first half. */
  function Store(s: State, snapshot: Option<CachedKeys>, call: Call): State {
    State(s.keys[call.uri := Remember(snapshot, call.c, call.fetched)], s.log + [FetchOf(call)])
  }

  /** Two calls that both read the entry in s; a stores first. */
  function Overlapped(s: State, a: Call, b: Call): State {
    Store(Store(s, EntryAt(s.keys, a.uri), a), EntryAt(s.keys, b.uri), b)
  }

  ghost predicate Overlapping(s: State, a: Call, b: Call) {
    a.uri == b.uri && Fetches(s, a) && Fetches(s, b)
  }

  function Held(s: State, uri: Uri): CachedKeys {
    if uri in s.keys then s.keys[uri] else CachedKeys(map[], 0, 0)
  }

  lemma {:induction false} LogsOfTwo(log: seq<Fetch>, one: Fetch, two: Fetch)
    requires one.uri == two.uri
    ensures LastTry(log + [one] + [two], one.uri) == Some(two)
    ensures LastGood(log + [one] + [two], one.uri)
         == if two.keys.Some? then Some(two) else if one.keys.Some? then Some(one) else LastGood(log, one.uri)
  {
    assert (log + [one] + [two])[..|log| + 1] == log + [one];
    assert (log + [one])[..|log|] == log;
  }

  /** Sequential is needed as well. After two overlapping calls the cache still holds
      what the latest fetches brought if and only if the one that stores last succeeds,
      or neither does, or the other one brought just what was cached, dated alike. */
  lemma OverlapReflectsIff(s: State, a: Call, b: Call)
    requires Overlapping(s, a, b) && Reflects(s, a.uri)
    ensures Reflects(Overlapped(s, a, b), a.uri)
       <==> || b.fetched.Ok?
            || a.fetched.Err?
            || (Held(s, a.uri).value == a.fetched.value && Held(s, a.uri).at == a.c.stored)
  {
    LogsOfTwo(s.log, FetchOf(a), FetchOf(b));
  }

  /** Of the overlapping calls that succeed, the one whose fetch began last. */
  function Newest(a: Call, b: Call): Option<Call> {
    if a.fetched.Ok? && (b.fetched.Err? || a.c.begin > b.c.begin) then Some(a)
    else if b.fetched.Ok? then Some(b)
    else None
  }

  /** The cache holds the keys and the date of the fetch that began last. */
  ghost predicate HoldsNewest(s: State, a: Call, b: Call) {
    var after, newest := Held(Overlapped(s, a, b), a.uri), Newest(a, b);
    if newest.Some? then after.value == newest.value.fetched.value && after.at == newest.value.c.stored
    else after.value == Held(s, a.uri).value && after.at == Held(s, a.uri).at
  }

  /** Going by when fetches began, a slow success does harm as well: it puts older keys
      over newer ones. */
  lemma HoldsNewestIff(s: State, a: Call, b: Call)
    requires Overlapping(s, a, b)
    ensures HoldsNewest(s, a, b)
       <==> match (a.fetched, b.fetched)
            case (Err(_), _) => true
            case (Ok(keys), Ok(later)) => a.c.begin <= b.c.begin || (keys == later && a.c.stored == b.c.stored)
            case (Ok(keys), Err(_)) => Held(s, a.uri).value == keys && Held(s, a.uri).at == a.c.stored
  {
  }

  /** Nor are overlapping fetches kept apart, unless the second begins thirty seconds
      after the first was stored. */
  lemma OverlapIsSpacedIff(s: State, a: Call, b: Call, now: Instant)
    requires Inv(s, now) && Overlapping(s, a, b)
    requires InOrder(a.c) && InOrder(b.c) && now <= a.c.first && now <= b.c.first
    ensures Spaced(Overlapped(s, a, b).log) <==> b.c.begin - FetchOf(a).tried >= MIN_KEY_REFRESH
  {
    var n := |s.log|;
    var log := Overlapped(s, a, b).log;
    assert log[n] == FetchOf(a) && log[n + 1] == FetchOf(b);
    forall i | 0 <= i < n && s.log[i].uri == a.uri
      ensures a.c.begin - s.log[i].tried >= MIN_KEY_REFRESH && b.c.begin - s.log[i].tried >= MIN_KEY_REFRESH
    {
      LastTryIsLast(s.log, a.uri, i);
      assert Reflects(s, a.uri);
    }
    forall i | 0 <= i < n
      ensures log[i] == s.log[i]
    {
    }
  }

  /** From the empty cache: one call brings the key and stores it, another one that
      began in the meantime fails after it, and the next call finds no key. */
  lemma {:induction false} OverlapForgetsKey(uri: Uri, kid: Kid, key: PublicKey, reason: string)
    ensures var empty := State(map[], []);
            var a := Call(uri, kid, Readings(0, 0, 0, 5, 5, 5), Ok(map[kid := key]));
            var b := Call(uri, kid, Readings(1, 1, 1, 6, 6, 6), Err(reason));
            var after := Overlapped(empty, a, b);
            && Overlapping(empty, a, b)
            && LastGood(after.log, uri).Some? && LastGood(after.log, uri).value.keys == Some(map[kid := key])
            && ResultOf(after, Call(uri, kid, At(7), Err(reason))) == Err(KeyNotFound)
            && !Reflects(after, uri) && !Spaced(after.log)
  {
    var empty := State(map[], []);
    var a := Call(uri, kid, Readings(0, 0, 0, 5, 5, 5), Ok(map[kid := key]));
    var b := Call(uri, kid, Readings(1, 1, 1, 6, 6, 6), Err(reason));
    LogsOfTwo([], FetchOf(a), FetchOf(b));
    OverlapReflectsIff(empty, a, b);
    assert Overlapped(empty, a, b).log == [FetchOf(a), FetchOf(b)];
  }

  // ----- Discovery documents -----

  datatype DiscoveryCall = DiscoveryCall(id: string, c: Readings, fetched: Result<Document, string>)

  datatype DiscoveryFetch = DiscoveryFetch(id: string, dated: Instant, value: Option<Document>)

  datatype DiscoveryState = DiscoveryState(entries: map<string, CachedDiscovery>, log: seq<DiscoveryFetch>)

  predicate IsCurrent(s: DiscoveryState, call: DiscoveryCall) {
    call.id in s.entries && call.c.first - s.entries[call.id].at < CACHE_TTL
  }

  function DiscoveryResult(s: DiscoveryState, call: DiscoveryCall): Result<Document, CacheError> {
    if IsCurrent(s, call) then Ok(s.entries[call.id].value)
    else match call.fetched
      case Ok(latest) => Ok(latest)
      case Err(reason) =>
        if call.id in s.entries && call.c.checked - s.entries[call.id].at < STALE_GRACE then Ok(s.entries[call.id].value)
        else Err(FetchFailed(reason))
  }

  function DiscoveryStep(s: DiscoveryState, call: DiscoveryCall): DiscoveryState {
    if IsCurrent(s, call) then s
    else match call.fetched
      case Ok(latest) =>
        DiscoveryState(s.entries[call.id := CachedDiscovery(latest, call.c.stored)],
                       s.log + [DiscoveryFetch(call.id, call.c.stored, Some(latest))])
      case Err(_) => s.(log := s.log + [DiscoveryFetch(call.id, call.c.stored, None)])
  }

  function DiscoveryRun(run: seq<DiscoveryCall>): DiscoveryState {
    if run == [] then DiscoveryState(map[], []) else DiscoveryStep(DiscoveryRun(run[..|run| - 1]), run[|run| - 1])
  }

  function LastDocument(log: seq<DiscoveryFetch>, id: string): (good: Option<DiscoveryFetch>)
    ensures good.Some? ==> good.value in log && good.value.id == id && good.value.value.Some?
  {
    if log == [] then None
    else if log[|log| - 1].id == id && log[|log| - 1].value.Some? then Some(log[|log| - 1])
    else LastDocument(log[..|log| - 1], id)
  }

  lemma {:induction false} DiscoveryReflects(run: seq<DiscoveryCall>, id: string)
    ensures var s := DiscoveryRun(run);
            var good := LastDocument(s.log, id);
            && (id in s.entries <==> good.Some?)
            && (good.Some? ==> s.entries[id] == CachedDiscovery(good.value.value.value, good.value.dated))
  {
    if run != [] {
      var before := run[..|run| - 1];
      DiscoveryReflects(before, id);
      assert DiscoveryRun(run).log != DiscoveryRun(before).log ==>
             DiscoveryRun(run).log[..|DiscoveryRun(before).log|] == DiscoveryRun(before).log;
    }
  }

  /** A document is only answered while less than six hours have passed since it was
      fetched, and it is always the latest one fetched for that provider. */
  lemma {:induction false} DiscoveryIsRecent(run: seq<DiscoveryCall>, call: DiscoveryCall)
    requires InOrder(call.c) && DiscoveryResult(DiscoveryRun(run), call).Ok?
    ensures var good := LastDocument(DiscoveryRun(run + [call]).log, call.id);
            && good.Some? && DiscoveryResult(DiscoveryRun(run), call).value == good.value.value.value
            && (if IsCurrent(DiscoveryRun(run), call) then call.c.first - good.value.dated < CACHE_TTL
                else if call.fetched.Ok? then good.value.dated == call.c.stored
                else call.c.checked - good.value.dated < STALE_GRACE)
  {
    assert (run + [call])[..|run|] == run;
    DiscoveryReflects(run, call.id);
    DiscoveryReflects(run + [call], call.id);
  }

  /** What every call for a document does, said on the fetches made so far: the latest
      document for fifteen minutes, then what a new fetch brings, and if that fails the
      latest one for six hours. */
  lemma {:induction false} DiscoveryByLog(run: seq<DiscoveryCall>, call: DiscoveryCall)
    ensures var s := DiscoveryRun(run);
            var good := LastDocument(s.log, call.id);
            && (IsCurrent(s, call) <==> good.Some? && call.c.first - good.value.dated < CACHE_TTL)
            && DiscoveryResult(s, call)
               == if IsCurrent(s, call) then Ok(good.value.value.value)
                  else match call.fetched
                    case Ok(latest) => Ok(latest)
                    case Err(reason) =>
                      if good.Some? && call.c.checked - good.value.dated < STALE_GRACE then Ok(good.value.value.value)
                      else Err(FetchFailed(reason))
  {
    DiscoveryReflects(run, call.id);
  }

  // ----- The cache object: one call of each method is one step of the runs above,
  // whatever fetches (log) came before -----

  class Cache {
    var discoveries: map<string, CachedDiscovery>
    var keys: map<Uri, CachedKeys>

    constructor ()
      ensures discoveries == map[] && keys == map[]
    {
      discoveries, keys := map[], map[];
    }

    method Reset()
      modifies this
      ensures discoveries == map[] && keys == map[]
    {
      discoveries, keys := map[], map[];
    }

    method Discovery(id: string, c: Readings, answer: Result<Document, string>, ghost log: seq<DiscoveryFetch>)
      returns (r: Result<Document, CacheError>)
      modifies this`discoveries
      ensures var s, call := DiscoveryState(old(discoveries), log), DiscoveryCall(id, c, answer);
              r == DiscoveryResult(s, call) && discoveries == DiscoveryStep(s, call).entries
    {
      var cached := EntryAt(discoveries, id);
      if cached.Some? && c.first - cached.value.at < CACHE_TTL {
        return Ok(cached.value.value);
      }
      if answer.Err? {
        if cached.Some? && c.checked - cached.value.at < STALE_GRACE {
          return Ok(cached.value.value);
        }
        return Err(FetchFailed(answer.error));
      }
      discoveries := discoveries[id := CachedDiscovery(answer.value, c.stored)];
      r := Ok(answer.value);
    }

    method Key(uri: Uri, kid: Kid, c: Readings, answer: Result<KeySet, string>, ghost log: seq<Fetch>)
      returns (r: Result<PublicKey, CacheError>)
      modifies this`keys
      ensures var s, call := State(old(keys), log), Call(uri, kid, c, answer);
              r == ResultOf(s, call) && keys == Step(s, KeyCall(call)).keys
    {
      var cached := EntryAt(keys, uri);
      if cached.Some? {
        if kid in cached.value.value && c.first - cached.value.at < CACHE_TTL {
          return Ok(cached.value.value[kid]);
        }
        if c.second - cached.value.attempted < MIN_KEY_REFRESH {
          if kid in cached.value.value {
            return Ok(cached.value.value[kid]);
          }
          return Err(KeyNotFound);
        }
      }
      if answer.Err? {
        var entry := if cached.Some? then cached.value else CachedKeys(map[], 0, 0);
        keys := keys[uri := entry.(attempted := c.stored)];
        if kid in entry.value && c.checked - entry.at < STALE_GRACE {
          return Ok(entry.value[kid]);
        }
        return Err(FetchFailed(answer.error));
      }
      keys := keys[uri := CachedKeys(answer.value, c.stored, c.tried)];
      if kid in answer.value {
        return Ok(answer.value[kid]);
      }
      r := Err(KeyNotFound);
    }
  }
}
