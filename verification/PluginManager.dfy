/** The loaded plugins, and a log of the frames their detectors have been shown (src/PluginManager.cpp). */
module PluginManager {
  import opened Types

  /** One call of a detector's process function. */
  datatype Call = Call(uid: Uid, frame: Frame)

  class PluginManager {
    const plugins: PluginTable
    const detector: Detector
    ghost var calls: seq<Call>

    constructor (plugins: PluginTable, detector: Detector)
      ensures this.plugins == plugins && this.detector == detector && calls == []
    {
      this.plugins := plugins;
      this.detector := detector;
      calls := [];
    }

    /** The only way to ask a detector. */
    method Process(uid: Uid, frame: Frame) returns (reply: Reply)
      modifies this`calls
      ensures reply == detector(uid, frame)
      ensures calls == old(calls) + [Call(uid, frame)]
    {
      calls := calls + [Call(uid, frame)];
      reply := detector(uid, frame);
    }
  }
}
