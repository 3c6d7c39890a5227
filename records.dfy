/**
 The rows that flow between the stages of the feature pipeline. Each
 datatype is one frame schema: a stage adds the column it computes and drops
 the ones it consumes. Timestamps are whole seconds; the journey id type `J`
 is left open so that the same later stages serve both the packed integer
 ids of the published pipeline and the composite key used by the corrected one.
 Integer columns are unbounded `int`/`nat`; the source's are 32-bit, so
 results about packed ids apply only while values stay in that range.
 */
module Records {

  datatype Option<T> = None | Some(value: T)

  /** A raw touchpoint: columns uid, conversion, datetime, campaign. */
  datatype Touchpoint = Touchpoint(uid: int, conversion: bool, datetime: int, campaign: string)

  /** A touchpoint with its conversion segment (column conversion_id). */
  datatype Segmented = Segmented(uid: int, conversion: bool, datetime: int, campaign: string, conversionId: nat)

  /** A touchpoint tagged with its journey; uid and conversion_id are gone. */
  datatype Journeyed<J> = Journeyed(conversion: bool, datetime: int, campaign: string, journeyId: J)

  /** A touchpoint with its 1-based position in its journey; datetime is gone. */
  datatype Indexed<J> = Indexed(journeyId: J, conversion: bool, campaign: string, campaignIndex: nat)

  /** One journey's conversion outcome. */
  datatype Label<J> = Label(journeyId: J, conversionStatus: bool)

  /** One journey's campaigns by position: `campaigns[i]` is the column for position i + 1. */
  datatype Pivoted<J> = Pivoted(journeyId: J, campaigns: seq<Option<string>>)

  /** A final feature record: positional campaign columns and the conversion label. */
  datatype Feature<J> = Feature(journeyId: J, campaigns: seq<Option<string>>, conversionStatus: bool)

  /** A collision-free journey id: the (user, segment) pair itself. */
  datatype JourneyKey = JourneyKey(uid: int, conversionId: nat)
}
