/** Per-channel energy record written for every analysed channel of an event. */
module BeGeChannelInfo {

  /** Baseline, extrema and average peak of one channel. */
  datatype OneChannelInfo = OneChannelInfo(baseline: real, maximum: real, minimum: real, averagepeak: real) {

    /** The default constructor: every field zero. */
    static function Default(): (c: OneChannelInfo)
      ensures c.baseline == 0.0 && c.maximum == 0.0 && c.minimum == 0.0 && c.averagepeak == 0.0
    {
      OneChannelInfo(0.0, 0.0, 0.0, 0.0)
    }
  }

  /** The per-event list of channel records, in the order they were pushed. */
  datatype ChannelInfo = ChannelInfo(channels: seq<OneChannelInfo>) {

    /** `channels[i]`; unchecked in the source, so only meaningful below the size. */
    function GetChannel(i: nat): OneChannelInfo
      requires i < |channels|
    {
      channels[i]
    }

    function GetNumChannels(): nat {
      |channels|
    }

    /** `channels.clear()`. */
    function Clear(): ChannelInfo {
      ChannelInfo([])
    }

    /** `channels.push_back(c)`. */
    function PushBack(c: OneChannelInfo): ChannelInfo {
      ChannelInfo(channels + [c])
    }
  }

  /** The accessors observe `clear` and `push_back` as a vector: the size
      grows by one, the new record is last, earlier ones stay put. */
  lemma ChannelAccessors(info: ChannelInfo, c: OneChannelInfo)
    ensures info.Clear().GetNumChannels() == 0
    ensures info.PushBack(c).GetNumChannels() == info.GetNumChannels() + 1
    ensures info.PushBack(c).GetChannel(info.GetNumChannels()) == c
    ensures forall i :: 0 <= i < info.GetNumChannels() ==> info.PushBack(c).GetChannel(i) == info.GetChannel(i)
  {
  }
}
