/**
 * The `submit` command (src/commands/submit.rs): scanning a player's battle
 * log for the match between the two players of a pairing, and choosing the
 * reply.
 *
 * A log entry is given here by the four strings the command extracts from
 * it: the event mode, the tag of the first player of each of the two teams,
 * and the battle result as the command renders it.
 */
module Submit {
  import opened Wrappers

  /** The only mode a tournament battle is played in. */
  const TournamentMode: string := "wipeout"

  /** The largest scan count for which the command replies with a battle. */
  const MaxReplyIndex: nat := 21

  datatype LogEntry = LogEntry(mode: string, firstTag0: string, firstTag1: string, result: string)

  /** The same battle with the two teams listed the other way round. */
  function SwapTeams(e: LogEntry): LogEntry
  {
    e.(firstTag0 := e.firstTag1, firstTag1 := e.firstTag0)
  }

  /** The test inside the scan loop. */
  predicate Qualifies(e: LogEntry, player1: string, player2: string)
    ensures Qualifies(e, player1, player2) ==> e.mode == TournamentMode
    ensures Qualifies(e, player1, player2) ==> {player1, player2} <= {e.firstTag0, e.firstTag1}
  {
    e.mode == TournamentMode
    && (player1 == e.firstTag0 || player1 == e.firstTag1)
    && (player2 == e.firstTag0 || player2 == e.firstTag1)
  }

  /**
   * For two different players, an entry qualifies iff it is a wipeout battle
   * whose two first tags are exactly those players.  When the same tag is
   * given twice, an entry qualifies as soon as either first tag is that tag,
   * whoever the other player is.
   */
  lemma QualifiesIff(e: LogEntry, player1: string, player2: string)
    ensures player1 != player2 ==>
      (Qualifies(e, player1, player2)
       <==> e.mode == TournamentMode && {player1, player2} == {e.firstTag0, e.firstTag1})
    ensures Qualifies(e, player1, player1)
       <==> e.mode == TournamentMode && player1 in {e.firstTag0, e.firstTag1}
  {
  }

  /** Which player is named first, and which team is listed first, does not matter. */
  lemma QualifiesSymmetric(e: LogEntry, player1: string, player2: string)
    ensures Qualifies(e, player1, player2) == Qualifies(e, player2, player1)
    ensures Qualifies(e, player1, player2) == Qualifies(SwapTeams(e), player1, player2)
  {
  }

  /** The position of the last qualifying entry of `logs`, if any entry qualifies. */
  function LastQualifying(logs: seq<LogEntry>, player1: string, player2: string): (k: Option<nat>)
    ensures k.None? <==> forall j :: 0 <= j < |logs| ==> !Qualifies(logs[j], player1, player2)
    ensures k.Some? ==> k.value < |logs| && Qualifies(logs[k.value], player1, player2)
    ensures k.Some? ==> forall j :: k.value < j < |logs| ==> !Qualifies(logs[j], player1, player2)
    decreases |logs|
  {
    if |logs| == 0 then None
    else if Qualifies(logs[|logs| - 1], player1, player2) then Some(|logs| - 1)
    else LastQualifying(logs[..|logs| - 1], player1, player2)
  }

  /** The value of `result` after scanning `logs`: the last qualifying entry's result, or "". */
  function ScanResult(logs: seq<LogEntry>, player1: string, player2: string): string
  {
    match LastQualifying(logs, player1, player2)
    case Some(k) => logs[k].result
    case None => ""
  }

  /** The qualifying entries of `logs`, in feed order. */
  function QualifyingEntries(logs: seq<LogEntry>, player1: string, player2: string): (q: seq<LogEntry>)
    ensures forall e :: e in q ==> e in logs && Qualifies(e, player1, player2)
    ensures forall e :: e in logs && Qualifies(e, player1, player2) ==> e in q
  {
    if |logs| == 0 then []
    else
      QualifyingEntries(logs[..|logs| - 1], player1, player2)
      + (if Qualifies(logs[|logs| - 1], player1, player2) then [logs[|logs| - 1]] else [])
  }

  /**
   * The scan result depends only on the qualifying entries: it is the result
   * of the last of them, and "" when there are none.
   */
  lemma {:induction false} ScanResultIsLastOfQualifying(logs: seq<LogEntry>, player1: string, player2: string)
    ensures var q := QualifyingEntries(logs, player1, player2);
            ScanResult(logs, player1, player2) == if q == [] then "" else q[|q| - 1].result
  {
    if |logs| > 0 && !Qualifies(logs[|logs| - 1], player1, player2) {
      ScanResultIsLastOfQualifying(logs[..|logs| - 1], player1, player2);
      assert QualifyingEntries(logs, player1, player2)
          == QualifyingEntries(logs[..|logs| - 1], player1, player2);
    }
  }

  /** An entry that does not qualify leaves the scan result as it was. */
  lemma NonQualifyingIgnored(logs: seq<LogEntry>, e: LogEntry, player1: string, player2: string)
    requires !Qualifies(e, player1, player2)
    ensures ScanResult(logs + [e], player1, player2) == ScanResult(logs, player1, player2)
  {
  }

  /** A qualifying entry at the end overrides every earlier one. */
  lemma LaterQualifyingWins(logs: seq<LogEntry>, e: LogEntry, player1: string, player2: string)
    requires Qualifies(e, player1, player2)
    ensures ScanResult(logs + [e], player1, player2) == e.result
  {
  }

  /**
   * The loop of lines 23-45: visits every entry, counting them in `index`,
   * and overwrites `result` with each qualifying entry's result.
   */
  method Scan(logs: seq<LogEntry>, player1: string, player2: string) returns (index: nat, result: string)
    ensures index == |logs|
    ensures LastQualifying(logs, player1, player2).None? ==> result == ""
    ensures LastQualifying(logs, player1, player2).Some? ==>
      result == logs[LastQualifying(logs, player1, player2).value].result
  {
    index := 0;
    result := "";
    for i := 0 to |logs|
      invariant index == i
      invariant result == ScanResult(logs[..i], player1, player2)
    {
      assert logs[..i + 1] == logs[..i] + [logs[i]];
      if Qualifies(logs[i], player1, player2) {
        LaterQualifyingWins(logs[..i], logs[i], player1, player2);
        result := logs[i].result;
      } else {
        NonQualifyingIgnored(logs[..i], logs[i], player1, player2);
      }
      index := index + 1;
    }
    assert logs[..|logs|] == logs;
  }

  /** The replies of the command. */
  datatype Reply =
    | Shown(entry: LogEntry, result: string)   // the "Battle logs result" embed
    | IndexOutOfRange(index: nat)              // reading `logs[index]` past the end panics
    | NoBattleLogs                             // "No battle logs found (yet?)", then the "Unsuccessful response" error

  /** Rust's `logs[i]` on a `Vec`: the entry, or `None` where the access panics. */
  function EntryAt(logs: seq<LogEntry>, i: nat): (r: Option<LogEntry>)
    ensures r.Some? <==> i < |logs|
    ensures r.Some? ==> r.value == logs[i]
  {
    if i < |logs| then Some(logs[i]) else None
  }

  /**
   * The command as written (lines 23-60 and 146-158): the reply branch is
   * chosen by the entry count alone, and that branch then reads the entry at
   * position `index`, which is the count, so one past the last entry.
   */
  method SubmitAsWritten(logs: seq<LogEntry>, player1: string, player2: string) returns (reply: Reply)
    ensures reply.IndexOutOfRange? <==> |logs| <= MaxReplyIndex
    ensures reply.IndexOutOfRange? ==> reply.index == |logs|
    ensures reply.NoBattleLogs? <==> |logs| > MaxReplyIndex
    ensures !reply.Shown?
  {
    var index, result := Scan(logs, player1, player2);
    if index <= MaxReplyIndex {
      reply := match EntryAt(logs, index)
        case Some(e) => Shown(e, result)
        case None => IndexOutOfRange(index);
    } else {
      reply := NoBattleLogs;
    }
  }

  /**
   * The scan of `SubmitCorrected`: the same loop, remembering where the last
   * qualifying entry was instead of only its result.
   */
  method ScanLastQualifying(logs: seq<LogEntry>, player1: string, player2: string) returns (found: Option<nat>)
    ensures found == LastQualifying(logs, player1, player2)
  {
    found := None;
    for i := 0 to |logs|
      invariant found == LastQualifying(logs[..i], player1, player2)
    {
      assert logs[..i + 1][..i] == logs[..i];
      if Qualifies(logs[i], player1, player2) {
        found := Some(i);
      }
    }
    assert logs[..|logs|] == logs;
  }

  /**
   * The command as evidently intended: show the last qualifying entry with its
   * result when one exists, and otherwise reply that no battle was found.
   */
  method SubmitCorrected(logs: seq<LogEntry>, player1: string, player2: string) returns (reply: Reply)
    ensures reply.Shown? <==> exists j :: 0 <= j < |logs| && Qualifies(logs[j], player1, player2)
    ensures reply.Shown? ==> reply.result == ScanResult(logs, player1, player2)
    ensures reply.Shown? ==> Qualifies(reply.entry, player1, player2) && reply.result == reply.entry.result
    ensures reply.Shown? ==>
      LastQualifying(logs, player1, player2).Some?
      && reply.entry == logs[LastQualifying(logs, player1, player2).value]
    ensures !reply.IndexOutOfRange?
  {
    var found := ScanLastQualifying(logs, player1, player2);
    match found {
      case Some(k) =>
        reply := Shown(logs[k], logs[k].result);
      case None =>
        reply := NoBattleLogs;
    }
  }
}
