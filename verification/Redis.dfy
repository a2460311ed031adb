/** The shared store of `loadbalancer/redis.go` and the two managers that keep their records in it.

    Values are held decoded; the store is the in-memory one, which neither fails nor expires keys.
    An instant that was never set (`time.Time{}`) is `None`. */
module Redis {
  import opened GoInts
  import opened Options

  datatype SessionData = SessionData(
    backendURL: string, region: string, createdAt: Option<int>, lastAccess: Option<int>)

  datatype ScalingState = ScalingState(
    currentReplicas: int,
    totalRequests: int,
    lastScaleUp: Option<int>,
    lastScaleDown: Option<int>,
    cooldownPeriod: int)

  datatype Value = Session(session: SessionData) | Scaling(state: ScalingState)

  type Data = map<string, Value>

  const DEFAULT_SCALING := ScalingState(3, 0, None, None, 120_000_000_000)

  /** Decoding ignores the fields of another kind of record and leaves its own ones zero. */
  function AsSession(v: Value): SessionData {
    match v
    case Session(s) => s
    case Scaling(_) => SessionData("", "", None, None)
  }

  function AsScaling(v: Value): ScalingState {
    match v
    case Session(_) => ScalingState(0, 0, None, None, 0)
    case Scaling(s) => s
  }

  function SessionKey(prefix: string, session: string): string {
    prefix + ":session:" + session
  }

  function StateKey(prefix: string): string {
    prefix + ":autoscaling:state"
  }

  /** Under one prefix, every session has a key of its own, and none of them is the key of the scaling state. */
  lemma {:induction false} KeysApart(prefix: string, a: string, b: string)
    ensures SessionKey(prefix, a) == SessionKey(prefix, b) <==> a == b
    ensures SessionKey(prefix, a) != StateKey(prefix)
  {
    var n := |prefix| + |":session:"|;
    assert SessionKey(prefix, a)[n..] == a && SessionKey(prefix, b)[n..] == b;
    assert SessionKey(prefix, a)[|prefix| + 1] == 's' && StateKey(prefix)[|prefix| + 1] == 'a';
  }

  // ---------- Sessions ----------

  function SessionURL(data: Data, prefix: string, session: string): Option<string> {
    var key := SessionKey(prefix, session);
    if key in data then Some(AsSession(data[key]).backendURL) else None
  }

  /** Looking a session up marks it as accessed. */
  function Accessed(data: Data, prefix: string, session: string, now: int): Data {
    var key := SessionKey(prefix, session);
    if key in data then data[key := Session(AsSession(data[key]).(lastAccess := Some(now)))] else data
  }

  function Stored(data: Data, prefix: string, session: string, url: string, region: string, now: int): Data {
    data[SessionKey(prefix, session) := Session(SessionData(url, region, Some(now), Some(now)))]
  }

  /** `MockRedisClient` */
  class Store {
    var data: Data

    constructor ()
      ensures data == map[]
    {
      data := map[];
    }

    method Set(key: string, value: Value)
      modifies this
      ensures data == old(data)[key := value]
    {
      data := data[key := value];
    }

    method Get(key: string) returns (value: Option<Value>)
      ensures value == if key in data then Some(data[key]) else None
    {
      value := if key in data then Some(data[key]) else None;
    }

    method Del(key: string)
      modifies this
      ensures data == old(data) - {key}
    {
      data := data - {key};
    }
  }

  class StickySessionManager {
    const store: Store
    const keyPrefix: string

    constructor (store: Store, keyPrefix: string)
      ensures this.store == store && this.keyPrefix == keyPrefix
    {
      this.store, this.keyPrefix := store, keyPrefix;
    }

    method GetSession(session: string, now: int) returns (found: Option<SessionData>)
      modifies store
      ensures store.data == Accessed(old(store.data), keyPrefix, session, now)
      ensures var key := SessionKey(keyPrefix, session);
        match found
        case None => key !in old(store.data) && store.data == old(store.data)
        case Some(s) =>
          && key in old(store.data) && store.data == old(store.data)[key := Session(s)]
          && s == AsSession(old(store.data)[key]).(lastAccess := Some(now))
      ensures SessionURL(old(store.data), keyPrefix, session) ==
        match found case None => None case Some(s) => Some(s.backendURL)
    {
      var key := SessionKey(keyPrefix, session);
      var value := store.Get(key);
      if value == None {
        return None;
      }
      var data := AsSession(value.value).(lastAccess := Some(now));
      UpdateSession(session, data);
      return Some(data);
    }

    method UpdateSession(session: string, data: SessionData)
      modifies store
      ensures store.data == old(store.data)[SessionKey(keyPrefix, session) := Session(data)]
    {
      store.Set(SessionKey(keyPrefix, session), Session(data));
    }

    method SetSession(session: string, url: string, region: string, now: int)
      modifies store
      ensures store.data == Stored(old(store.data), keyPrefix, session, url, region, now)
      ensures store.data ==
          old(store.data)[SessionKey(keyPrefix, session) := Session(SessionData(url, region, Some(now), Some(now)))]
    {
      var data := SessionData(url, region, Some(now), Some(now));
      store.Set(SessionKey(keyPrefix, session), Session(data));
    }

    method DeleteSession(session: string)
      modifies store
      ensures store.data == old(store.data) - {SessionKey(keyPrefix, session)}
    {
      store.Del(SessionKey(keyPrefix, session));
    }
  }

  // ---------- Scaling ----------

  function ScalingOf(data: Data, prefix: string): ScalingState {
    if StateKey(prefix) in data then AsScaling(data[StateKey(prefix)]) else DEFAULT_SCALING
  }

  predicate Cooled(last: Option<int>, cooldown: int, now: int) {
    last == None || now - last.value > cooldown
  }

  predicate ScalesUp(s: ScalingState, requests: int, threshold: int, now: int) {
    requests > threshold && Cooled(s.lastScaleUp, s.cooldownPeriod, now)
  }

  function ScaledUp(s: ScalingState, now: int): ScalingState {
    s.(lastScaleUp := Some(now), currentReplicas := s.currentReplicas + 1, totalRequests := 0)
  }

  predicate ScalesDown(s: ScalingState, requests: int, threshold: int, now: int) {
    && requests < Half(threshold) && requests > 0 && s.currentReplicas > 1
    && Cooled(s.lastScaleDown, s.cooldownPeriod, now)
  }

  function ScaledDown(s: ScalingState, now: int): ScalingState {
    s.(lastScaleDown := Some(now), currentReplicas := s.currentReplicas - 1, totalRequests := 0)
  }

  /** When a decision is made: above the threshold, or far enough below it that twice the load and two more do not
      exceed it, and in both cases more than a cooldown after the last decision of the kind. */
  lemma {:induction false} DecisionsExact(s: ScalingState, requests: int, threshold: int, now: int)
    ensures ScalesUp(s, requests, threshold, now) <==>
        threshold < requests && (s.lastScaleUp.Some? ==> s.lastScaleUp.value + s.cooldownPeriod < now)
    ensures ScalesDown(s, requests, threshold, now) <==>
        && 0 < requests && 2 * requests + 2 <= threshold && 2 <= s.currentReplicas
        && (s.lastScaleDown.Some? ==> s.lastScaleDown.value + s.cooldownPeriod < now)
  {
  }

  /** Whatever the sign of the threshold, no load is both too high and too low. */
  lemma {:induction false} NeverBothWays(s: ScalingState, s': ScalingState, requests: int, threshold: int, now: int)
    ensures !(ScalesUp(s, requests, threshold, now) && ScalesDown(s', requests, threshold, now))
  {
  }

  /** What one decision leaves in the store. */
  function Decided(data: Data, prefix: string, requests: int, threshold: int, now: int): Data {
    var s := ScalingOf(data, prefix);
    if ScalesUp(s, requests, threshold, now) then data[StateKey(prefix) := Scaling(ScaledUp(s, now))]
    else if ScalesDown(s, requests, threshold, now) then data[StateKey(prefix) := Scaling(ScaledDown(s, now))]
    else data
  }

  function Counted(data: Data, prefix: string, requests: int): Data {
    data[StateKey(prefix) := Scaling(ScalingOf(data, prefix).(totalRequests := requests))]
  }

  class AutoScalingStateManager {
    const store: Store
    const keyPrefix: string

    constructor (store: Store, keyPrefix: string)
      ensures this.store == store && this.keyPrefix == keyPrefix
    {
      this.store, this.keyPrefix := store, keyPrefix;
    }

    method GetAutoScalingState() returns (state: ScalingState)
      ensures state == ScalingOf(store.data, keyPrefix)
      ensures StateKey(keyPrefix) in store.data ==> state == AsScaling(store.data[StateKey(keyPrefix)])
      ensures StateKey(keyPrefix) !in store.data ==> state == ScalingState(3, 0, None, None, 120_000_000_000)
    {
      var value := store.Get(StateKey(keyPrefix));
      state := if value == None then DEFAULT_SCALING else AsScaling(value.value);
    }

    method SetAutoScalingState(state: ScalingState)
      modifies store
      ensures store.data == old(store.data)[StateKey(keyPrefix) := Scaling(state)]
    {
      store.Set(StateKey(keyPrefix), Scaling(state));
    }

    method UpdateRequestCount(requests: int)
      modifies store
      ensures store.data == Counted(old(store.data), keyPrefix, requests)
    {
      var state := GetAutoScalingState();
      state := state.(totalRequests := requests);
      SetAutoScalingState(state);
    }

    method ShouldScale(requests: int, threshold: int, now: int) returns (up: bool, down: bool)
      modifies store
      ensures var s := ScalingOf(old(store.data), keyPrefix);
        up == ScalesUp(s, requests, threshold, now) && down == ScalesDown(s, requests, threshold, now)
      ensures !(up && down)
      ensures store.data == Decided(old(store.data), keyPrefix, requests, threshold, now)
    {
      var state := GetAutoScalingState();
      NeverBothWays(state, state, requests, threshold, now);
      up, down := false, false;
      if requests > threshold && (state.lastScaleUp == None || now - state.lastScaleUp.value > state.cooldownPeriod) {
        up := true;
        state := state.(lastScaleUp := Some(now), currentReplicas := state.currentReplicas + 1, totalRequests := 0);
      }
      if requests < Half(threshold) && requests > 0 && state.currentReplicas > 1 &&
         (state.lastScaleDown == None || now - state.lastScaleDown.value > state.cooldownPeriod) {
        down := true;
        state := state.(lastScaleDown := Some(now), currentReplicas := state.currentReplicas - 1, totalRequests := 0);
      }
      if up || down {
        SetAutoScalingState(state);
      }
    }
  }
}
