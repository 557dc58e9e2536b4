/** The leader's table of past sums: open addressing with linear probing and wrap-around, in an array with one
    slot per possible remainder. */
module HashTable {
  import opened Collections

  const SIZE: nat := 1000

  /** The slot `d` places after `h`, around the end of the table. */
  function Slot(h: nat, d: nat): nat {
    if h + d < SIZE then h + d else h + d - SIZE
  }

  /** How many places after `h` slot `p` comes. */
  function Distance(h: nat, p: nat): nat
    requires h < SIZE && p < SIZE
  {
    if p >= h then p - h else p + SIZE - h
  }

  class Table {
    const sums: array<int>
    const occupied: array<bool>

    ghost predicate Sized()
      reads this
    {
      sums.Length == occupied.Length == SIZE
    }

    /** Every key is reached from its home slot through occupied slots only, and no key is stored twice. */
    ghost predicate Valid()
      reads this, sums, occupied
    {
      && Sized()
      && (forall p :: 0 <= p < SIZE && occupied[p] ==> sums[p] >= 0)
      && (forall p, e :: 0 <= p < SIZE && occupied[p] && 0 <= e < Distance(sums[p] % SIZE, p) ==>
            occupied[Slot(sums[p] % SIZE, e)])
      && (forall p, q :: 0 <= p < q < SIZE && occupied[p] && occupied[q] ==> sums[p] != sums[q])
    }

    /** No key has ever been moved off its home slot: every key is stored at its own index. */
    ghost predicate Direct()
      requires Sized()
      reads this, sums, occupied
    {
      forall p :: 0 <= p < SIZE && occupied[p] ==> sums[p] == p
    }

    ghost function Keys(): (s: set<int>)
      requires Sized()
      reads this, sums, occupied
    {
      set p | 0 <= p < SIZE && occupied[p] :: sums[p]
    }

    constructor ()
      ensures Valid() && Keys() == {} && Direct() && fresh(sums) && fresh(occupied)
    {
      sums := new int[SIZE](_ => 0);
      occupied := new bool[SIZE](_ => false);
    }

    /** Whether `sum` was there before; if not, it is now. */
    method CheckAndUpdate(sum: nat) returns (seen: bool)
      requires Valid() && exists f :: 0 <= f < SIZE && !occupied[f]
      modifies sums, occupied
      ensures Valid()
      ensures seen <==> sum in old(Keys())
      ensures Keys() == old(Keys()) + {sum}
      ensures old(Direct()) && sum < SIZE ==> Direct()
    {
      hide Keys;
      ghost var f :| 0 <= f < SIZE && !occupied[f];
      ghost var home := sum % SIZE;
      ghost var d := 0;
      var index := sum % SIZE;
      while occupied[index]
        invariant index == Slot(home, d) < SIZE && d <= Distance(home, f)
        invariant forall e :: 0 <= e < d ==> occupied[Slot(home, e)] && sums[Slot(home, e)] != sum
        decreases Distance(home, f) - d
      {
        if sums[index] == sum {
          StoredIsKey(index);
          return true;
        }
        assert index + 1 <= SIZE;
        index := (index + 1) % SIZE;
        d := d + 1;
      }
      NotStored(sum, d);
      Insert(sum, index, d);
      return false;
    }

    method Insert(sum: nat, index: nat, ghost d: nat)
      requires Valid() && sum !in Keys() && index == Slot(sum % SIZE, d) < SIZE && d < SIZE && !occupied[index]
      requires forall e :: 0 <= e < d ==> occupied[Slot(sum % SIZE, e)]
      modifies sums, occupied
      ensures Valid() && Keys() == old(Keys()) + {sum}
      ensures old(Direct()) && index == sum ==> Direct()
    {
      ghost var keys := Keys();
      assert forall p :: 0 <= p < SIZE && occupied[p] ==> sums[p] in keys;
      sums[index] := sum;
      occupied[index] := true;
      assert Distance(sum % SIZE, index) == d;
      forall x ensures x in Keys() <==> x in keys + {sum} {
        if x in keys {
          var p :| 0 <= p < SIZE && old(occupied[p]) && old(sums[p]) == x;
          assert occupied[p] && sums[p] == x;
        } else if x == sum {
          assert occupied[index] && sums[index] == x;
        }
      }
    }

    /** A probe that ends at a free slot has missed nothing. */
    lemma StoredIsKey(p: nat)
      requires Sized() && p < SIZE && occupied[p]
      ensures sums[p] in Keys()
    {
    }

    lemma NotStored(sum: nat, d: nat)
      requires Valid() && d < SIZE && !occupied[Slot(sum % SIZE, d)]
      requires forall e :: 0 <= e < d ==> sums[Slot(sum % SIZE, e)] != sum
      ensures sum !in Keys()
    {
      var home := sum % SIZE;
      forall p | 0 <= p < SIZE && occupied[p] ensures sums[p] != sum {
        assert p == Slot(home, Distance(home, p));
      }
    }

    /** A table with fewer than SIZE keys has a free slot. */
    lemma RoomLeft()
      requires Valid() && |Keys()| < SIZE
      ensures exists f :: 0 <= f < SIZE && !occupied[f]
    {
      if forall f :: 0 <= f < SIZE ==> occupied[f] {
        assert Distinct(sums[..]);
        DistinctSize(sums[..]);
        assert Elements(sums[..]) == Keys() by {
          forall x ensures x in Elements(sums[..]) <==> x in Keys() {}
        }
      }
    }
  }
}
