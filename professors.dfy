/** The small total text functions of the `eclass` command configuration: the
    place description, the search-result sentence, the status tables and the
    "recorded" values. */
module Professors {
  import opened Utils
  import opened Database

  /** Discord's channel mention. */
  function ChannelMention(id: string): string
  {
    "<#" + id + ">"
  }

  /** A markdown link whose target is wrapped in angle brackets so that Discord
      shows no preview of it. */
  function HyperlinkHideEmbed(content: string, url: string): string
  {
    "[" + content + "](<" + url + ">)"
  }

  /** The sentence fragment saying where a class takes place, total over the
      four places. */
  function Where(place: EclassPlace, placeInformation: Option<string>, voiceChannelId: Option<string>): string
  {
    "sur " +
      match place
      case Discord =>
        "Discord (" + (if Truthy(voiceChannelId) then ChannelMention(voiceChannelId.value) else "aucun salon vocal défini") + ")"
      case OnSite =>
        "le campus (salle " + (if placeInformation.Some? then placeInformation.value else "inconnue") + ")"
      case Teams =>
        if Truthy(placeInformation) then HyperlinkHideEmbed("Microsoft Teams", placeInformation.value)
        else "Microsoft Teams (lien inconnu)"
      case Other =>
        "\"" + (if placeInformation.Some? then placeInformation.value else "inconnu") + "\""
  }

  /** A missing room reads "salle inconnue". */
  lemma WhereUnknownRoom(voiceChannelId: Option<string>)
    ensures Where(OnSite, None, voiceChannelId) == "sur le campus (salle inconnue)"
  {
  }

  /** A missing place name reads "inconnu". */
  lemma WhereUnknownPlace(voiceChannelId: Option<string>)
    ensures Where(Other, None, voiceChannelId) == "sur \"inconnu\""
  {
  }

  /** A missing or empty Teams link reads "lien inconnu". */
  lemma WhereUnknownTeamsLink(placeInformation: Option<string>, voiceChannelId: Option<string>)
    requires !Truthy(placeInformation)
    ensures Where(Teams, placeInformation, voiceChannelId) == "sur Microsoft Teams (lien inconnu)"
  {
  }

  /** A subject with a missing or empty voice channel id reads "aucun salon vocal défini". */
  lemma WhereNoVoiceChannel(placeInformation: Option<string>, voiceChannelId: Option<string>)
    requires !Truthy(voiceChannelId)
    ensures Where(Discord, placeInformation, voiceChannelId) == "sur Discord (aucun salon vocal défini)"
  {
    assert Where(Discord, placeInformation, voiceChannelId) == "sur " + "Discord (" + "aucun salon vocal défini" + ")";
  }

  /** A Teams class with a link shows it as a hidden-preview hyperlink, and an
      on-platform class with a voice channel mentions that channel. */
  lemma WhereLinks(placeInformation: Option<string>, voiceChannelId: Option<string>)
    ensures Truthy(placeInformation) ==>
      Where(Teams, placeInformation, voiceChannelId) == "sur " + HyperlinkHideEmbed("Microsoft Teams", placeInformation.value)
    ensures Truthy(voiceChannelId) ==>
      Where(Discord, placeInformation, voiceChannelId) == "sur Discord (" + ChannelMention(voiceChannelId.value) + ")"
  {
  }

  /** Reads the kind of place back from a `Where` text. */
  function PlaceOfWhere(text: string): Option<EclassPlace>
  {
    if |text| < 5 || text[..4] != "sur " then None
    else if text[4] == 'D' then Some(Discord)
    else if text[4] == 'l' then Some(OnSite)
    else if text[4] == '[' || text[4] == 'M' then Some(Teams)
    else if text[4] == '"' then Some(Other)
    else None
  }

  /** The place description always names its place unambiguously: the four
      texts never collide. */
  lemma WhereNamesPlace(place: EclassPlace, placeInformation: Option<string>, voiceChannelId: Option<string>)
    ensures PlaceOfWhere(Where(place, placeInformation, voiceChannelId)) == Some(place)
  {
    var r := Where(place, placeInformation, voiceChannelId);
    var tail := r[4..];
    assert r == "sur " + tail;
    match place
    case Discord =>
      assert tail[0] == 'D';
    case OnSite =>
      assert tail[0] == 'l';
    case Teams =>
      assert tail[0] == '[' || tail[0] == 'M';
    case Other =>
      assert tail[0] == '"';
  }

  /** A given room, even an empty one, is carried into the text: distinct rooms
      give distinct texts. */
  lemma WhereKeepsRoom(a: string, b: string, voiceChannelId: Option<string>)
    ensures Where(OnSite, Some(a), voiceChannelId) == Where(OnSite, Some(b), voiceChannelId) ==> a == b
  {
    var ra, rb := Where(OnSite, Some(a), voiceChannelId), Where(OnSite, Some(b), voiceChannelId);
    if ra == rb {
      assert ra == "sur le campus (salle " + a + ")" && rb == "sur le campus (salle " + b + ")";
      assert a == ra[21..|ra| - 1] && b == rb[21..|rb| - 1];
    }
  }

  /** A given place name, even an empty one, is carried into the text. */
  lemma WhereKeepsPlaceName(a: string, b: string, voiceChannelId: Option<string>)
    ensures Where(Other, Some(a), voiceChannelId) == Where(Other, Some(b), voiceChannelId) ==> a == b
  {
    var ra, rb := Where(Other, Some(a), voiceChannelId), Where(Other, Some(b), voiceChannelId);
    if ra == rb {
      assert ra == "sur \"" + a + "\"" && rb == "sur \"" + b + "\"";
      assert a == ra[5..|ra| - 1] && b == rb[5..|rb| - 1];
    }
  }

  /** A non-empty Teams link is carried into the text. */
  lemma WhereKeepsTeamsLink(a: string, b: string, voiceChannelId: Option<string>)
    requires a != "" && b != ""
    ensures Where(Teams, Some(a), voiceChannelId) == Where(Teams, Some(b), voiceChannelId) ==> a == b
  {
    var ra, rb := Where(Teams, Some(a), voiceChannelId), Where(Teams, Some(b), voiceChannelId);
    if ra == rb {
      assert ra == "sur [Microsoft Teams](<" + a + ">)" && rb == "sur [Microsoft Teams](<" + b + ">)";
      assert a == ra[23..|ra| - 2] && b == rb[23..|rb| - 2];
    }
  }

  /** "n classe(s) a/ont été trouvée(s) !": plural forms exactly when more than
      one class was found, so that 0 and 1 both read in the singular. */
  function SomeClassesFound(amount: nat): (r: string)
    ensures |r| >= 3 && (r[|r| - 3..] == "s !" <==> amount > 1)
  {
    var front := NatToString(amount) + " classe" + (if amount > 1 then "s ont" else " a") + " été trouvé";
    var r := front + "e" + (if amount > 1 then "s" else "") + " !";
    assert if amount > 1 then r == (front + "e") + "s !" else r == front + "e !";
    r
  }

  /** The sentence opens with the decimal count, followed by a space: reading
      the leading digits gives the amount back. */
  lemma SomeClassesFoundCount(amount: nat)
    ensures var r, k := SomeClassesFound(amount), |NatToString(amount)|;
      k < |r| && r[k] == ' ' && IsDecimal(r[..k]) && DecimalValue(r[..k]) == amount
  {
    var r, k := SomeClassesFound(amount), |NatToString(amount)|;
    assert r[..k] == NatToString(amount);
    DecimalRoundTrip(amount);
  }

  /** `statuses`: the status as the end of "the class ..." sentences. */
  function Statuses(status: EclassStatus): (r: string)
    ensures r == (if status == Planned then "n'" else "") + "est " + RawStatuses(status)
  {
    match status
    case Planned => "n'est pas encore commencé"
    case InProgress => "est en cours"
    case Finished => "est terminé"
    case Canceled => "est annulé"
  }

  /** `rawStatuses`: the bare status; distinct statuses give distinct texts. */
  function RawStatuses(status: EclassStatus): (r: string)
    ensures StatusOfRaw(r) == Some(status)
  {
    match status
    case Planned => "pas encore commencé"
    case InProgress => "en cours"
    case Finished => "terminé"
    case Canceled => "annulé"
  }

  /** Reads a status back from its `rawStatuses` text. */
  function StatusOfRaw(text: string): Option<EclassStatus>
  {
    if text == "pas encore commencé" then Some(Planned)
    else if text == "en cours" then Some(InProgress)
    else if text == "terminé" then Some(Finished)
    else if text == "annulé" then Some(Canceled)
    else None
  }

  const RecordedValues: seq<string> := ["Non :x:", "Oui :white_check_mark:"]

  /** JavaScript's `Number(b)` on a boolean. */
  function BoolToNumber(b: bool): nat
  {
    if b then 1 else 0
  }

  /** `recordedValues[Number(isRecorded)]`: "Oui" for a recorded class, "Non"
      otherwise; the index is always within the table. */
  function RecordedValue(isRecorded: bool): (r: string)
    ensures |r| >= 3 && r[..3] == (if isRecorded then "Oui" else "Non")
  {
    RecordedValues[BoolToNumber(isRecorded)]
  }
}
