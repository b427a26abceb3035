// The key a rule state is filed under: the rule's address with the world number in its top bits.
module StateKeys {

  const ADDRESS_SPACE: bv64 := 0x1_0000_0000_0000

  // A uint16_t, already widened to uintptr_t as setParallelWorldNumber does.
  type World = w: bv64 | w < 0x1_0000

  function Extended(world: World): bv64 { world << 48 }

  // The key of getState and deleteState; getPureState uses that of world 0.
  function StateKey(address: bv64, world: World): bv64 { address | Extended(world) }

  lemma Parts(a: bv64, w: World)
    requires a < ADDRESS_SPACE
    ensures StateKey(a, w) >> 48 == w
    ensures StateKey(a, w) & 0x0000_FFFF_FFFF_FFFF == a
  {}

  // Rules below 2^48 never share a rule state between different rules or different worlds.
  lemma KeyInjective(a: bv64, w: World, b: bv64, v: World)
    requires a < ADDRESS_SPACE && b < ADDRESS_SPACE
    ensures StateKey(a, w) == StateKey(b, v) <==> a == b && w == v
  {
    Parts(a, w);
    Parts(b, v);
  }

  ghost predicate Twin(a: bv64, b: bv64, v: World) {
    b < ADDRESS_SPACE && (b != a || v != 0) && StateKey(b, v) == StateKey(a, 0)
  }

  function Low(a: bv64): bv64 { a & 0x0000_FFFF_FFFF_FFFF }

  function High(a: bv64): World { a >> 48 }

  lemma LowIsLow(a: bv64)
    ensures Low(a) < ADDRESS_SPACE
  {}

  lemma Rejoin(a: bv64)
    ensures StateKey(Low(a), High(a)) == StateKey(a, 0)
  {}

  lemma HighTwin(a: bv64)
    requires a >= ADDRESS_SPACE
    ensures Twin(a, Low(a), High(a))
  {
    LowIsLow(a);
    Rejoin(a);
  }

  // The bound is exact: a rule shares its key in world 0 with another rule or another world
  // below the bound if and only if it lies at or above 2^48 itself.
  lemma KeyCollides(a: bv64)
    ensures a >= ADDRESS_SPACE <==> exists b: bv64, v: World :: Twin(a, b, v)
  {
    if a >= ADDRESS_SPACE {
      HighTwin(a);
    } else {
      forall b: bv64, v: World ensures !Twin(a, b, v) {
        if b < ADDRESS_SPACE {
          KeyInjective(b, v, a, 0);
        }
      }
    }
  }
}
