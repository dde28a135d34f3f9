/** The enumerations and reference records the class-session code shares with
    its database layer. */
module Database {
  import opened Utils

  /** Life-cycle state stored on every class session. */
  datatype EclassStatus = Planned | InProgress | Finished | Canceled

  /** Where a class session takes place. */
  datatype EclassPlace = Discord | OnSite | Teams | Other

  /** The three school years ("promotions") the bot serves. */
  datatype SchoolYear = L1 | L2 | L3

  /** A subject of the catalogue, as far as the class-session code reads it. */
  datatype Subject = Subject(
    name: string,
    emoji: string,
    classCode: string,
    schoolYear: SchoolYear,
    voiceChannelId: Option<string>)
}
