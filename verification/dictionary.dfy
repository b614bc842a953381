/** The dictionary that `SpellCheckerManager` holds. Its hash table is not
    part of this model: the table is seen as the set of words it holds, and a
    counter of the probes its lookups make. */
module Dictionary {
  import opened Hashing

  class HashTable {
    /** The words added so far. */
    var entries: set<string>
    /** Slots inspected by lookups since the last reset. */
    var probes: nat

    constructor ()
      ensures entries == {} && probes == 0
    {
      entries := {};
      probes := 0;
    }

    /** `add(word, hash)`: the word is held from now on. */
    method Add(word: string, hash: int)
      requires hash == Hash(word)
      modifies this
      ensures entries == old(entries) + {word}
      ensures probes == old(probes)
    {
      entries := entries + {word};
    }

    /** `contains(word, hash)`: membership; every lookup inspects at least
        the word's home slot, so the probe counter grows. */
    method Contains(word: string, hash: int) returns (found: bool)
      requires hash == Hash(word)
      modifies this`probes
      ensures found <==> word in entries
      ensures probes > old(probes)
    {
      probes := probes + 1;
      found := word in entries;
    }

    /** `resetProbes()`. */
    method ResetProbes()
      modifies this`probes
      ensures probes == 0
    {
      probes := 0;
    }

    /** `size()`: the number of words held. */
    function Size(): nat
      reads this
    {
      |entries|
    }
  }
}
