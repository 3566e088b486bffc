/** What the metadata of a clip holds, and when a clip is lost. */
module MetadataLaws {
  import opened Types
  import opened Segments
  import opened DataAnalyzer
  import SegmentLaws

  /** Record k hands details of this plugin to the clip that starts at lo: it is included and has some, and it is
      the clip's first record or follows an included one. */
  predicate Hands(input: seq<RawData>, uid: Uid, lo: nat, k: nat)
    requires lo <= k < |input|
  {
    input[k].included && uid in input[k].detected && (k == lo || input[k - 1].included)
  }

  /** The records from lo up to hi that do, in order. */
  function Handing(input: seq<RawData>, uid: Uid, lo: nat, hi: nat): seq<nat>
    requires hi <= |input|
  {
    if hi <= lo then []
    else
      var rest := Handing(input, uid, lo, hi - 1);
      if Hands(input, uid, lo, hi - 1) then rest + [hi - 1] else rest
  }

  /** ks lists, in order, exactly the records in [lo, hi) that hand on details of this plugin. */
  ghost predicate Lists(input: seq<RawData>, uid: Uid, lo: nat, hi: nat, ks: seq<nat>)
    requires hi <= |input|
  {
    && (forall i :: 0 <= i < |ks| ==> lo <= ks[i] < hi && Hands(input, uid, lo, ks[i]))
    && (forall i, j :: 0 <= i < j < |ks| ==> ks[i] < ks[j])
    && (forall k :: lo <= k < hi && Hands(input, uid, lo, k) ==> k in ks)
  }

  /** es are the details of the records ks, in the same order. */
  ghost predicate Spells(input: seq<RawData>, uid: Uid, ks: seq<nat>, es: seq<Detected>) {
    && |es| == |ks|
    && forall i :: 0 <= i < |ks| ==>
                     && ks[i] < |input| && uid in input[ks[i]].detected
                     && es[i] == Detected(input[ks[i]].num, input[ks[i]].detected[uid])
  }

  lemma ListsNone(input: seq<RawData>, uid: Uid, lo: nat, hi: nat)
    requires hi <= |input| && hi <= lo
    ensures Lists(input, uid, lo, hi, [])
  {
  }

  /** A record that hands nothing on leaves the list alone. */
  lemma ListsSame(input: seq<RawData>, uid: Uid, lo: nat, hi: nat, ks: seq<nat>)
    requires lo <= hi < |input| && Lists(input, uid, lo, hi, ks) && !Hands(input, uid, lo, hi)
    ensures Lists(input, uid, lo, hi + 1, ks)
  {
    hide Hands;
  }

  lemma ListsMore(input: seq<RawData>, uid: Uid, lo: nat, hi: nat, ks: seq<nat>)
    requires lo <= hi < |input| && Lists(input, uid, lo, hi, ks) && Hands(input, uid, lo, hi)
    ensures Lists(input, uid, lo, hi + 1, ks + [hi])
  {
    hide Hands;
    var all := ks + [hi];
    assert all[|ks|] == hi;
    forall k | lo <= k < hi + 1 && Hands(input, uid, lo, k) ensures k in all {
      if k < hi {
        assert k in ks;
      }
    }
  }

  lemma {:induction false} HandingLists(input: seq<RawData>, uid: Uid, lo: nat, hi: nat)
    requires hi <= |input|
    ensures Lists(input, uid, lo, hi, Handing(input, uid, lo, hi))
  {
    hide Lists, Hands;
    if hi <= lo {
      ListsNone(input, uid, lo, hi);
    } else {
      var rest := Handing(input, uid, lo, hi - 1);
      HandingLists(input, uid, lo, hi - 1);
      if Hands(input, uid, lo, hi - 1) {
        ListsMore(input, uid, lo, hi - 1, rest);
      } else {
        ListsSame(input, uid, lo, hi - 1, rest);
      }
    }
  }

  lemma EntriesAppend(uid: Uid, records: seq<RawData>, r: RawData)
    ensures Entries(uid, records + [r])
            == if uid in r.detected then Entries(uid, records) + [Detected(r.num, r.detected[uid])]
               else Entries(uid, records)
  {
    assert (records + [r])[..|records|] == records;
  }

  lemma SpellsAppend(input: seq<RawData>, uid: Uid, ks: seq<nat>, es: seq<Detected>, k: nat)
    requires Spells(input, uid, ks, es) && k < |input| && uid in input[k].detected
    ensures Spells(input, uid, ks + [k], es + [Detected(input[k].num, input[k].detected[uid])])
  {
  }

  lemma {:induction false} EntriesSpell(input: seq<RawData>, uid: Uid, lo: nat, hi: nat)
    requires hi <= |input|
    ensures Spells(input, uid, Handing(input, uid, lo, hi), Entries(uid, Picked(input, lo, hi)))
  {
    if lo < hi {
      EntriesSpell(input, uid, lo, hi - 1);
      var picked, ks := Picked(input, lo, hi - 1), Handing(input, uid, lo, hi - 1);
      var r := input[hi - 1];
      if HandsOn(input, lo, hi - 1) {
        EntriesAppend(uid, picked, r);
        if uid in r.detected {
          SpellsAppend(input, uid, ks, Entries(uid, picked), hi - 1);
        }
      }
    }
  }

  /** The metadata of a clip: for each plugin, exactly the details handed on by the clip's own records, in
      frame order, and no entry for a plugin without any. */
  lemma ClipMetadata(clip: TimeRangeWithMetadata, input: seq<RawData>, s: Segment, uid: Uid)
    requires s.first <= s.last < |input| && Renders(clip, input, s)
    ensures var ks := Handing(input, uid, s.first, s.last + 1);
            && Lists(input, uid, s.first, s.last + 1, ks)
            && (uid in clip.collection <==> ks != [])
            && (uid in clip.collection ==> Spells(input, uid, ks, clip.collection[uid]))
  {
    hide Picked, Entries, Handing;
    HandingLists(input, uid, s.first, s.last + 1);
    EntriesSpell(input, uid, s.first, s.last + 1);
  }

  /** The last clip reaches the end of the input exactly when the last record is included. */
  lemma ReachesEnd(input: seq<RawData>, f: nat)
    requires input != []
    ensures var clips := Clips(Mask(input), f);
            input[|input| - 1].included <==> clips != [] && clips[|clips| - 1].last + 1 == |input|
  {
    var mask, n := Mask(input), |input| - 1;
    SegmentLaws.ClipsBuilt(mask, f);
    assert mask[n] == input[n].included;
  }

  /** Every clip is kept unless the last record is included and its clip starts at a negative frame number. */
  lemma KeptIff(input: seq<RawData>, f: nat)
    ensures var clips := Clips(Mask(input), f);
            Kept(input, clips) == clips
            <==> !(input != [] && input[|input| - 1].included
                   && clips != [] && clips[|clips| - 1].first < |input| && input[clips[|clips| - 1].first].num < 0)
  {
    if input != [] {
      ReachesEnd(input, f);
    }
  }

  /** Records that start below zero lose their clip. A session never feeds such records, because frames are
      numbered from 1; this is about other callers of the analyser. */
  lemma NegativeStartLost()
    ensures var input := [RawData(-1, true, map[])];
            Clips(Mask(input), 0) == [Segment(0, 0)] && Kept(input, Clips(Mask(input), 0)) == []
  {
    var mask := Mask([RawData(-1, true, map[])]);
    assert mask == [true] && mask[..0] == [];
  }
}
