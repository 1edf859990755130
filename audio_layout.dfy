/**
 * The two audio-layout tables: Convert2CEFSpeakerLayout of browser-client.cpp,
 * from a channel count to a CEF channel layout, and GetSpeakerLayout of
 * obs-browser-source.cpp, from a CEF channel layout to an OBS speaker layout.
 * The layouts cross the RPC boundary as int32 casts of the same enumeration,
 * so here they are one datatype.
 */
module AudioLayouts {
  /** The members of CEF's `ChannelLayout` that the tables name; `OtherLayout` stands for the rest. */
  datatype ChannelLayout =
    | LayoutUnsupported
    | LayoutMono
    | LayoutStereo
    | Layout2_1
    | Layout2Point1
    | Layout2_2
    | LayoutQuad
    | Layout4_0
    | Layout4_1
    | Layout5_1
    | Layout5_1Back
    | Layout7_1
    | Layout7_1WideBack
    | Layout7_1Wide
    | OtherLayout(code: int)

  /** OBS's `speaker_layout`. */
  datatype SpeakerLayout =
    | SpeakersUnknown
    | SpeakersMono
    | SpeakersStereo
    | Speakers2Point1
    | Speakers4Point0
    | Speakers4Point1
    | Speakers5Point1
    | Speakers7Point1

  /** A channel count OBS can output: 1 to 6, or 8. */
  predicate SupportedChannelCount(channels: int) {
    1 <= channels <= 6 || channels == 8
  }

  /** Convert2CEFSpeakerLayout: the CEF layout for an OBS channel count. */
  function Convert2CEFSpeakerLayout(channels: int): (layout: ChannelLayout)
    ensures layout == LayoutUnsupported <==> !SupportedChannelCount(channels)
    ensures !layout.OtherLayout?
  {
    match channels
    case 1 => LayoutMono
    case 2 => LayoutStereo
    case 3 => Layout2_1
    case 4 => Layout4_0
    case 5 => Layout4_1
    case 6 => Layout5_1
    case 8 => Layout7_1
    case _ => LayoutUnsupported
  }

  /** GetSpeakerLayout: the OBS speaker layout for a CEF layout; SPEAKERS_UNKNOWN for the layouts it does not list. */
  function GetSpeakerLayout(layout: ChannelLayout): (speakers: SpeakerLayout)
    ensures speakers == SpeakersUnknown <==>
      (layout.LayoutUnsupported? || layout.Layout2_1? || layout.OtherLayout?)
  {
    match layout
    case LayoutMono => SpeakersMono
    case LayoutStereo => SpeakersStereo
    case Layout2Point1 => Speakers2Point1
    case Layout2_2 | LayoutQuad | Layout4_0 => Speakers4Point0
    case Layout4_1 => Speakers4Point1
    case Layout5_1 | Layout5_1Back => Speakers5Point1
    case Layout7_1 | Layout7_1WideBack | Layout7_1Wide => Speakers7Point1
    case _ => SpeakersUnknown
  }

  /**
   * get_audio_channels of libobs (not part of this model): the number of
   * channels of a speaker layout, 0 for an unknown one.
   */
  function SpeakerChannels(speakers: SpeakerLayout): (n: nat)
    ensures n == 0 <==> speakers == SpeakersUnknown
  {
    match speakers
    case SpeakersUnknown => 0
    case SpeakersMono => 1
    case SpeakersStereo => 2
    case Speakers2Point1 => 3
    case Speakers4Point0 => 4
    case Speakers4Point1 => 5
    case Speakers5Point1 => 6
    case Speakers7Point1 => 8
  }

  /**
   * Going from a channel count to a CEF layout and back to OBS speakers keeps
   * the channel count for 1, 2, 4, 5, 6 and 8 channels. Three channels are
   * lost: they map to CEF's 2_1 layout, which GetSpeakerLayout does not list
   * (it lists 2POINT1 instead); so is every unsupported count.
   */
  lemma ChannelCountRoundTrip(channels: int)
    ensures SupportedChannelCount(channels) && channels != 3 ==>
      SpeakerChannels(GetSpeakerLayout(Convert2CEFSpeakerLayout(channels))) == channels
    ensures channels == 3 || !SupportedChannelCount(channels) ==>
      GetSpeakerLayout(Convert2CEFSpeakerLayout(channels)) == SpeakersUnknown
  {
  }
}
