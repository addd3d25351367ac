/** The live player's pure helpers and its quality and error handling
    (client/src/components/LiveVideoPlayer.tsx). The HLS library is
    foreign: its levels and error reports are inputs, and of the library
    object only the selected level is modelled. */
module Player {
  import opened Wrappers
  import opened Strings
  import Ladder

  /** `formatResolution(width, height)`: a label from the height alone. */
  function FormatResolution(width: int, height: int): string {
    if height >= 2160 then "4K"
    else if height >= 1440 then "2K"
    else if height >= 1080 then "1080p"
    else if height >= 720 then "720p"
    else if height >= 480 then "480p"
    else IntToDecimal(height) + "p"
  }

  /** The label ignores the width, and below 480 lines it is the height
      followed by "p". */
  lemma ResolutionLabelOfHeight(w1: int, w2: int, height: int)
    ensures FormatResolution(w1, height) == FormatResolution(w2, height)
    ensures height < 480 ==> FormatResolution(w1, height) == IntToDecimal(height) + "p"
    ensures 480 <= height < 1440 ==> FormatResolution(w1, height)[|FormatResolution(w1, height)| - 1] == 'p'
  {
  }

  /** Every preset the server transcodes to is labelled with its own name. */
  lemma PresetsLabelledByName(k: nat)
    requires k < |Ladder.Presets|
    ensures FormatResolution(Ladder.Presets[k].width, Ladder.Presets[k].height) == Ladder.Presets[k].name
  {
    if k == 3 {
      assert NatToDecimal(3) == "3";
      assert NatToDecimal(36) == "3" + "6";
      assert NatToDecimal(360) == "36" + "0";
    }
  }

  /** A level of the stream as the HLS library reports it. */
  datatype Level = Level(width: int, height: int, bitrate: int)

  /** An entry of the quality menu; its label's bitrate part, a floating
      point rendering, is not modelled. */
  datatype Quality = Quality(id: int, width: int, height: int, bitrate: int, resolution: string)

  /** `hls.levels.map((level, index) => ...)`. */
  function QualitiesOf(levels: seq<Level>): (r: seq<Quality>)
    ensures |r| == |levels|
    ensures forall i :: 0 <= i < |r| ==>
      r[i].id == i && r[i].width == levels[i].width && r[i].height == levels[i].height
      && r[i].bitrate == levels[i].bitrate && r[i].resolution == FormatResolution(levels[i].width, levels[i].height)
  {
    seq(|levels|, i requires 0 <= i < |levels| =>
      Quality(i, levels[i].width, levels[i].height, levels[i].bitrate, FormatResolution(levels[i].width, levels[i].height)))
  }

  /** Choosing a menu entry by its id selects that very level. */
  lemma QualityIdSelectsItsLevel(levels: seq<Level>, i: nat)
    requires i < |levels|
    ensures var q := QualitiesOf(levels)[i]; 0 <= q.id < |levels| && levels[q.id].height == q.height
  {
  }

  datatype ErrorType = Disconnected | NetworkFailure | MediaFailure | FatalFailure

  /** What the player shows and does about an error. */
  datatype PlayerError = PlayerError(kind: ErrorType, message: string)

  /** The HLS library's error categories. */
  datatype HlsErrorType = NetworkError | MediaError | OtherError

  /** An error report: whether it is fatal, its category, the HTTP status
      of the failed response if any, and the library's reason if any. */
  datatype ErrorReport = ErrorReport(fatal: bool, category: HlsErrorType, responseCode: Option<int>, reason: Option<string>)

  /** The `Hls.Events.ERROR` listener's choice. */
  function Classify(e: ErrorReport): Option<PlayerError> {
    if !e.fatal then None
    else match e.category
      case NetworkError =>
        if e.responseCode == Some(404) then Some(PlayerError(Disconnected, "Streamer disconnected"))
        else Some(PlayerError(NetworkFailure, if e.reason.Some? then e.reason.value else ""))
      case MediaError => Some(PlayerError(MediaFailure, "Media error"))
      case OtherError => Some(PlayerError(FatalFailure, "Fatal error encountered"))
  }

  /** Only fatal errors are handled; a missing playlist (404) means the
      streamer went away, any other network failure is a network error,
      and the rest are classified by category. */
  lemma ClassifyCases(e: ErrorReport)
    ensures Classify(e).Some? <==> e.fatal
    ensures Classify(e).Some? ==>
      (Classify(e).value.kind == Disconnected <==> e.category == NetworkError && e.responseCode == Some(404))
    ensures Classify(e).Some? ==>
      (Classify(e).value.kind == NetworkFailure <==> e.category == NetworkError && e.responseCode != Some(404))
    ensures Classify(e).Some? ==> (Classify(e).value.kind == MediaFailure <==> e.category == MediaError)
    ensures Classify(e).Some? ==> (Classify(e).value.kind == FatalFailure <==> e.category == OtherError)
  {
  }

  /** The parts of the player's state the quality menu and the error
      handler change, and the HLS object's selected level. */
  class PlayerState {
    var hlsAttached: bool
    var hlsLevel: int
    var currentQuality: int
    var isAutoQuality: bool
    var showQualityMenu: bool
    var error: Option<string>
    /** Retries waiting for their five-second timer. */
    var pendingRetries: nat

    /** The initial state: automatic quality, no error, no player yet. */
    constructor ()
      ensures !hlsAttached && currentQuality == -1 && isAutoQuality && !showQualityMenu
      ensures error.None? && pendingRetries == 0
    {
      hlsAttached, hlsLevel := false, -1;
      currentQuality, isAutoQuality, showQualityMenu := -1, true, false;
      error, pendingRetries := None, 0;
    }

    /** The library was created and attached. */
    method Attach()
      modifies this`hlsAttached
      ensures hlsAttached
    {
      hlsAttached := true;
    }

    /** The menu shows the library's level and mode. */
    predicate InSync()
      reads this
    {
      hlsAttached ==> currentQuality == hlsLevel && (isAutoQuality <==> hlsLevel == -1)
    }

    /** `handleQualityChange(qualityId)`: -1 is automatic selection, any
      other id a fixed level; either closes the menu. Without a player
      nothing happens. */
    method HandleQualityChange(qualityId: int)
      modifies this`hlsLevel, this`currentQuality, this`isAutoQuality, this`showQualityMenu
      ensures !old(hlsAttached) ==> unchanged(this)
      ensures old(hlsAttached) ==>
        && hlsLevel == qualityId && currentQuality == qualityId
        && isAutoQuality == (qualityId == -1) && !showQualityMenu
      ensures InSync()
    {
      if !hlsAttached {
        return;
      }
      if qualityId == -1 {
        hlsLevel := -1;
        currentQuality, isAutoQuality, showQualityMenu := -1, true, false;
      } else {
        hlsLevel := qualityId;
        currentQuality, isAutoQuality, showQualityMenu := qualityId, false, false;
      }
    }

    /** `handleError(error)`: show the message; only a disconnection gets
      a retry five seconds later. */
    method HandleError(e: PlayerError)
      modifies this`error, this`pendingRetries
      ensures error == Some(e.message)
      ensures pendingRetries == old(pendingRetries) + (if e.kind == Disconnected then 1 else 0)
    {
      error := Some(e.message);
      if e.kind == Disconnected {
        pendingRetries := pendingRetries + 1;
      }
    }
  }
}
