/** Per-channel rise-time record written for each preamp channel of an event. */
module RisetimeInfo {
  import opened Arith

  /** Threshold crossings, rise time, rough extrema and their sample
      positions; the positions are unsigned 32-bit (`UInt_t`). */
  datatype OneRisetimeInfo = OneRisetimeInfo(
    start: real, stop: real, risetime: real,
    maximum: real, minimum: real,
    maxPoint: uint32, minPoint: uint32)
  {
    /** The default constructor: all seven fields zero. */
    static function Default(): (r: OneRisetimeInfo)
      ensures r.start == 0.0 && r.stop == 0.0 && r.risetime == 0.0
      ensures r.maximum == 0.0 && r.minimum == 0.0 && r.maxPoint == 0 && r.minPoint == 0
    {
      OneRisetimeInfo(0.0, 0.0, 0.0, 0.0, 0.0, 0, 0)
    }
  }

  /** The per-event list of rise-time records, in the order they were pushed. */
  datatype RisetimeInfo = RisetimeInfo(channels: seq<OneRisetimeInfo>) {

    /** `channels[i]`; unchecked in the source, so only meaningful below the size. */
    function GetChannel(i: nat): OneRisetimeInfo
      requires i < |channels|
    {
      channels[i]
    }

    function GetNumChannels(): nat {
      |channels|
    }

    /** `channels.clear()`. */
    function Clear(): RisetimeInfo {
      RisetimeInfo([])
    }

    /** `channels.push_back(r)`. */
    function PushBack(r: OneRisetimeInfo): RisetimeInfo {
      RisetimeInfo(channels + [r])
    }
  }

  /** The accessors observe `clear` and `push_back` as a vector. */
  lemma RisetimeAccessors(info: RisetimeInfo, r: OneRisetimeInfo)
    ensures info.Clear().GetNumChannels() == 0
    ensures info.PushBack(r).GetNumChannels() == info.GetNumChannels() + 1
    ensures info.PushBack(r).GetChannel(info.GetNumChannels()) == r
    ensures forall i :: 0 <= i < info.GetNumChannels() ==> info.PushBack(r).GetChannel(i) == info.GetChannel(i)
  {
  }
}
