/** The per-frame memory of detector outcomes and attached effects (src/OutcomeCache.cpp). */
module OutcomeCache {
  import opened Types

  class OutcomeCache {
    const defaultOutcome: Outcome := Outcome(true, [])
    var storage: map<Uid, Outcome>
    var detected: DetectedData
    var resultUid: Option<Uid>

    constructor ()
      ensures storage == map[] && detected == map[] && resultUid == None
    {
      storage := map[];
      detected := map[];
      resultUid := None;
    }

    /** The current result id is empty or stored. */
    ghost predicate Valid()
      reads this
    {
      resultUid.Some? ==> resultUid.value in storage
    }

    /** The outcome the evaluator is fed with. */
    ghost function Current(): Outcome
      requires Valid()
      reads this
    {
      if resultUid.None? then defaultOutcome else storage[resultUid.value]
    }

    predicate Empty()
      reads this
    {
      storage == map[] || resultUid.None?
    }

    method Hit(uid: Uid) returns (hit: bool)
      ensures hit <==> uid in storage
    {
      return uid in storage;
    }

    method SetResultUid(uid: Uid)
      modifies this`resultUid
      ensures resultUid == Some(uid)
    {
      resultUid := Some(uid);
    }

    method Write(uid: Uid, outcome: Outcome)
      modifies this`storage, this`resultUid
      ensures storage == old(storage)[uid := outcome] && resultUid == Some(uid)
      ensures Valid() && Current() == outcome
    {
      storage := storage[uid := outcome];
      SetResultUid(uid);
    }

    /** Looking up a missing id would insert a default entry; a valid cache never does. */
    method Result() returns (outcome: Outcome)
      modifies this`storage
      ensures old(Valid()) ==> storage == old(storage) && outcome == old(Current())
      ensures !old(Valid()) && old(Empty()) ==> storage == old(storage) && outcome == defaultOutcome
      ensures !old(Valid()) && !old(Empty()) ==>
                storage == old(storage)[resultUid.value := Outcome(false, [])] && outcome == Outcome(false, [])
    {
      if Empty() {
        return defaultOutcome;
      }
      if resultUid.value !in storage {
        storage := storage[resultUid.value := Outcome(false, [])];
      }
      return storage[resultUid.value];
    }

    /** Whether some stored outcome speaks for all frames at once, by starting with a flag. */
    method FindMultiFrameResult() returns (found: bool)
      ensures found <==> exists uid :: uid in storage && SpeaksForAll(storage[uid].list)
    {
      var rest := storage.Keys;
      while rest != {}
        invariant rest <= storage.Keys
        invariant forall uid :: uid in storage && uid !in rest ==> !SpeaksForAll(storage[uid].list)
      {
        var uid :| uid in rest;
        if SpeaksForAll(storage[uid].list) {
          return true;
        }
        rest := rest - {uid};
      }
      return false;
    }

    method SetDetected(uid: Uid)
      requires Valid()
      modifies this`storage, this`detected
      ensures storage == old(storage)
      ensures detected == old(detected)[uid := old(Current()).list]
    {
      var outcome := Result();
      detected := detected[uid := outcome.list];
    }

    method Clear()
      modifies this
      ensures storage == map[] && detected == map[] && resultUid == None
      ensures Valid() && Current() == defaultOutcome
    {
      storage := map[];
      detected := map[];
      resultUid := None;
    }
  }
}
