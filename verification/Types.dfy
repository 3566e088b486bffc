/** Vocabulary shared by every stage: plugins, expression tokens, outcomes and frames. */
module Types {

  datatype Option<+T> = None | Some(value: T)

  /** A plugin id, unique per loaded plugin and never empty. */
  type Uid = string

  datatype PluginKind = VideoDetect | VideoEffect | AudioDetect | AudioEffect | Render | Unspecified

  /** The loaded plugins, as the plugin manager knows them. */
  type PluginTable = map<Uid, PluginKind>

  predicate IsEffectKind(kind: PluginKind) {
    kind == VideoEffect || kind == AudioEffect
  }

  predicate IsEffect(plugins: PluginTable, uid: Uid) {
    uid in plugins && IsEffectKind(plugins[uid])
  }

  /** One word of a link expression. */
  datatype Token = And | Or | Colon | Uncut | Plugin(uid: Uid)

  predicate IsLogicalOperator(t: Token) {
    t == And || t == Or || t == Colon
  }

  /** One detected datum; a list that starts with a flag is a multi-frame result. */
  datatype Item =
    | Rect(x: real, y: real, width: real, height: real)
    | RectTag(x: real, y: real, width: real, height: real, tag: string)
    | Number(number: real)
    | Flag(flag: bool)

  type Details = seq<Item>

  predicate SpeaksForAll(list: Details) {
    list != [] && list[0].Flag?
  }

  datatype Outcome = Outcome(detect: bool, list: Details)

  /** What a detector call gives back: an outcome, or the error code of the exception it threw. */
  datatype Reply = Answer(outcome: Outcome) | Raised(error: int)

  type DetectedData = map<Uid, Details>

  datatype Frame = Frame(num: int, pts: real, data: seq<int>)

  /** What a detector plugin says about one frame. */
  type Detector = (Uid, Frame) -> Reply

  /** One analysed record: a frame number, the keep/drop verdict and the attached effects. */
  datatype RawData = RawData(num: int, included: bool, detected: DetectedData)
}
