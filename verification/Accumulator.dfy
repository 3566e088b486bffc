/** The list of analysed records (src/Accumulator.cpp). */
module Accumulator {
  import opened Types

  class Accumulator {
    var rawdata: seq<RawData>

    constructor ()
      ensures rawdata == []
    {
      rawdata := [];
    }

    method Append(frameNumber: int, included: bool, detected: DetectedData)
      modifies this
      ensures rawdata == old(rawdata) + [RawData(frameNumber, included, detected)]
    {
      rawdata := rawdata + [RawData(frameNumber, included, detected)];
    }

    /** A multi-frame result overwrites the verdict of every record, in order; it must cover them all. */
    method Update(detected: Details)
      requires |detected| >= |rawdata|
      requires forall i :: 0 <= i < |rawdata| ==> detected[i].Flag?
      modifies this
      ensures |rawdata| == |old(rawdata)|
      ensures forall i :: 0 <= i < |rawdata| ==> rawdata[i] == old(rawdata)[i].(included := detected[i].flag)
    {
      for i := 0 to |rawdata|
        invariant |rawdata| == |old(rawdata)|
        invariant forall k :: 0 <= k < i ==> rawdata[k] == old(rawdata)[k].(included := detected[k].flag)
        invariant forall k :: i <= k < |rawdata| ==> rawdata[k] == old(rawdata)[k]
      {
        rawdata := rawdata[i := rawdata[i].(included := detected[i].flag)];
      }
    }
  }
}
