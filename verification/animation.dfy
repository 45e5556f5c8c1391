/** The animation state store of the tile renderer (`AnimationStateManager`):
    a hash map from a packed 64-bit key to a pair of unsigned 32-bit counters,
    entries created on first access and advanced by wrap-around addition. */
module Animation {
  import opened UInt32

  datatype AnimationState = AnimationState(currentFrame: U32, elapsedTime: U32)

  /** The value-initialised `AnimationState{}`. */
  const Initial: AnimationState := AnimationState(0, 0)

  /** An unsigned 64-bit map key. */
  type Key = k: int | 0 <= k < Modulus * Modulus

  type Store = map<Key, AnimationState>

  /** `static_cast<uint64_t>(tilesetIndex) << 32 | animationIndex`. The shift
      multiplies by 2^32 without overflow since the index is below 2^32; it
      leaves the low 32 bits zero, and the animation index fits in them, so
      the bitwise or is an addition. */
  function PackKey(tilesetIndex: U32, animationIndex: U32): (k: Key)
    ensures k / Modulus == tilesetIndex
    ensures k % Modulus == animationIndex
  {
    tilesetIndex * Modulus + animationIndex
  }

  /** The high word of a key. */
  function TilesetOf(k: Key): U32 {
    k / Modulus
  }

  /** The low word of a key. */
  function AnimationOf(k: Key): U32 {
    k % Modulus
  }

  /** Distinct (tileset, animation) pairs get distinct keys, so equal
      animation indices in two tilesets never share a state. */
  lemma PackKeyInjective(t1: U32, a1: U32, t2: U32, a2: U32)
    ensures PackKey(t1, a1) == PackKey(t2, a2) <==> t1 == t2 && a1 == a2
  {
  }

  /** Every 64-bit key is the packing of its two words. */
  lemma PackKeyOfWords(k: Key)
    ensures PackKey(TilesetOf(k), AnimationOf(k)) == k
  {
  }

  /** The state `getState` hands out for key `k`: the stored one, or the
      value-initialised one when `k` has never been seen. */
  function Lookup(states: Store, k: Key): AnimationState {
    if k in states then states[k] else Initial
  }

  /** `getState(tilesetIndex, animationIndex)`: `operator[]` on the map, which
      inserts a value-initialised entry for an unseen key. Yields the state
      and the store after the call. */
  function GetState(states: Store, tilesetIndex: U32, animationIndex: U32): (r: (AnimationState, Store))
    ensures var k := PackKey(tilesetIndex, animationIndex);
      && r.1.Keys == states.Keys + {k}
      && r.0 == r.1[k]
      && (k in states ==> r.1 == states)
      && (k !in states ==> r.0 == Initial && |r.1| == |states| + 1)
      && (forall k' :: k' in states ==> r.1[k'] == states[k'])
  {
    var k := PackKey(tilesetIndex, animationIndex);
    if k in states then (states[k], states) else (Initial, states[k := Initial])
  }

  /** `update(deltaTime)`: every tracked state's elapsed time grows by
      `deltaTime` with 32-bit wrap-around; frames and keys stay as they are. */
  function Update(states: Store, deltaTime: U32): (r: Store)
    ensures r.Keys == states.Keys
    ensures forall k :: k in states ==>
      && r[k].currentFrame == states[k].currentFrame
      && r[k].elapsedTime == (states[k].elapsedTime + deltaTime) % Modulus
  {
    map k | k in states :: states[k].(elapsedTime := Add(states[k].elapsedTime, deltaTime))
  }

  /** Updating an empty store does nothing. */
  lemma UpdateEmpty(deltaTime: U32)
    ensures Update(map[], deltaTime) == map[]
  {
  }

  /** Two updates are one update by the wrapped sum of the deltas. */
  lemma UpdateComposes(states: Store, a: U32, b: U32)
    ensures Update(Update(states, a), b) == Update(states, Add(a, b))
  {
    var lhs := Update(Update(states, a), b);
    var rhs := Update(states, Add(a, b));
    forall k | k in states
      ensures lhs[k] == rhs[k]
    {
      AddAssociative(states[k].elapsedTime, a, b);
    }
  }

  /** `getState(t, a).elapsedTime += deltaTime`, the increment the renderer
      performs through the reference it gets back: only the entry for the
      pair changes, and it is created first when missing. */
  function Advance(states: Store, tilesetIndex: U32, animationIndex: U32, deltaTime: U32): (r: Store)
    ensures var k := PackKey(tilesetIndex, animationIndex);
      && r.Keys == states.Keys + {k}
      && r[k].currentFrame == Lookup(states, k).currentFrame
      && r[k].elapsedTime == Add(Lookup(states, k).elapsedTime, deltaTime)
      && (forall k' :: k' in states && k' != k ==> r[k'] == states[k'])
  {
    var (state, states') := GetState(states, tilesetIndex, animationIndex);
    states'[PackKey(tilesetIndex, animationIndex) := state.(elapsedTime := Add(state.elapsedTime, deltaTime))]
  }
}
