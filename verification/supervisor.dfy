/**
 * What the launcher's event loop writes to the server process
 * (papermc-launcher/launcher.go: Backup, Stop and the command handling in
 * Run): the backup saga, the Close/Open/Warn handlers for the scheduler's
 * commands, and the dispatch of console lines.
 *
 * The supervisor's dealings with the outside world are recorded in order
 * as a trace. Sleeps are left out (only the order of the steps is kept),
 * the archive step is an oracle whose outcome is a parameter, and a wait
 * for an acknowledgement is assumed to end: the matching rule itself is
 * the Correlation module's.
 */
module Supervisor {
  import opened Wrappers
  import opened GoText
  import opened Scheduler

  /** One observable step of the supervisor. */
  datatype Io =
    | Listen(query: string)   // a listen request accepted by the output analyzer
    | Send(line: string)      // a line written to the process's standard input
    | Archive                 // BackupFolder on the working directory
    | Refresh                 // LoadPaper: fetch the newest server build
    | Launch                  // Start: spawn a new server process

  /** The lines written to the process, in order. */
  function Sent(trace: seq<Io>): (lines: seq<string>)
    ensures |lines| <= |trace|
  {
    if trace == [] then []
    else (if trace[0].Send? then [trace[0].line] else []) + Sent(trace[1..])
  }

  lemma {:induction false} SentAppend(a: seq<Io>, b: seq<Io>)
    ensures Sent(a + b) == Sent(a) + Sent(b)
  {
    if a == [] {
      assert a + b == b;
    } else {
      assert (a + b)[0] == a[0];
      assert (a + b)[1..] == a[1..] + b;
      SentAppend(a[1..], b);
    }
  }

  /** A listen request followed by a write writes that line only. */
  lemma SentExchange(query: string, line: string)
    ensures Sent([Listen(query), Send(line)]) == [line]
  {
    var t := [Listen(query), Send(line)];
    assert t[1..] == [Send(line)];
    assert t[1..][1..] == [];
  }

  // ---------------------------------------------------------------------
  // The backup saga
  // ---------------------------------------------------------------------

  const SaveOffAck := "Automatic saving is now disabled"
  const SaveAllAck := "Saved the game"
  const SaveOnAck := "Automatic saving is now enabled"

  /** The acknowledgement the saga waits for after each of its commands. */
  function AckOf(command: string): string
  {
    if command == "save-off" then SaveOffAck
    else if command == "save-all" then SaveAllAck
    else if command == "save-on" then SaveOnAck
    else ""
  }

  /** The steps of Server.Backup for a given archive outcome (None: the archive succeeded). */
  function BackupSaga(archiveError: Option<string>): seq<Io>
  {
    [Listen(SaveOffAck), Send("save-off"), Listen(SaveAllAck), Send("save-all"), Archive]
    + (if archiveError.None? then [Listen(SaveOnAck), Send("save-on")] else [])
  }

  /** On success the saga writes exactly save-off, save-all, save-on; on failure it stops after save-all. */
  lemma BackupSagaWrites(archiveError: Option<string>)
    ensures Sent(BackupSaga(archiveError)) ==
      if archiveError.None? then ["save-off", "save-all", "save-on"] else ["save-off", "save-all"]
    ensures archiveError.Some? ==> "save-on" !in Sent(BackupSaga(archiveError))
  {
    var off := [Listen(SaveOffAck), Send("save-off")];
    var all := [Listen(SaveAllAck), Send("save-all")];
    var on := [Listen(SaveOnAck), Send("save-on")];
    var tail := if archiveError.None? then on else [];
    assert BackupSaga(archiveError) == off + all + [Archive] + tail;
    SentExchange(SaveOffAck, "save-off");
    SentExchange(SaveAllAck, "save-all");
    SentExchange(SaveOnAck, "save-on");
    assert Sent([Archive]) == [] by { assert [Archive][1..] == []; }
    SentAppend(off, all);
    SentAppend(off + all, [Archive]);
    SentAppend(off + all + [Archive], tail);
  }

  /** Each write of the saga comes right after the accepted request for its acknowledgement. */
  lemma BackupSagaAcknowledged(archiveError: Option<string>)
    ensures var t := BackupSaga(archiveError);
      forall i :: 0 <= i < |t| && t[i].Send? ==> 0 < i && t[i - 1] == Listen(AckOf(t[i].line))
  {
  }

  /** The archive step comes after both saves, and save-on, when written, after the archive. */
  lemma BackupSagaArchivesAfterSaving(archiveError: Option<string>)
    ensures var t := BackupSaga(archiveError);
      && t[4] == Archive
      && Sent(t[..4]) == ["save-off", "save-all"]
      && forall i :: 0 <= i < |t| && t[i] == Send("save-on") ==> 4 < i
  {
    var t := BackupSaga(archiveError);
    assert t[..4] == [Listen(SaveOffAck), Send("save-off")] + [Listen(SaveAllAck), Send("save-all")];
    SentExchange(SaveOffAck, "save-off");
    SentExchange(SaveAllAck, "save-all");
    SentAppend([Listen(SaveOffAck), Send("save-off")], [Listen(SaveAllAck), Send("save-all")]);
  }

  // ---------------------------------------------------------------------
  // Access control
  // ---------------------------------------------------------------------

  const ClosingNotice := "Server is closing now!"
  const PlayerListQuery := "of a max of"
  const EmptyServerMarker := "There are 0 of a max of"
  const WarnMessage := "say Server will close soon"

  /** `fwhitelist remove <player>` for each player, in configured order. */
  function RemoveCommands(players: seq<string>): seq<Io>
  {
    seq(|players|, i requires 0 <= i < |players| => Send("fwhitelist remove " + players[i]))
  }

  /** `fwhitelist add <player>` for each player, in configured order. */
  function AddCommands(players: seq<string>): seq<Io>
  {
    seq(|players|, i requires 0 <= i < |players| => Send("fwhitelist add " + players[i]))
  }

  /** The warn handler writes the warning exactly when the listing does not report an empty server. */
  function ShouldWarn(listing: string): bool
  {
    !Contains(listing, EmptyServerMarker)
  }

  /** The steps of the warn handler once the listing line has arrived. */
  function WarnSteps(listing: string): seq<Io>
  {
    [Listen(PlayerListQuery), Send("list")] + (if ShouldWarn(listing) then [Send(WarnMessage)] else [])
  }

  /** The warning is written if and only if the listing line does not contain the empty-server text. */
  lemma WarnSendsIffPlayersOnline(listing: string)
    ensures Sent(WarnSteps(listing)) ==
      if !Contains(listing, EmptyServerMarker) then ["list", WarnMessage] else ["list"]
    ensures WarnMessage in Sent(WarnSteps(listing)) <==> !Contains(listing, EmptyServerMarker)
  {
    var tail := if ShouldWarn(listing) then [Send(WarnMessage)] else [];
    SentExchange(PlayerListQuery, "list");
    SentAppend([Listen(PlayerListQuery), Send("list")], tail);
    assert Sent([Send(WarnMessage)]) == [WarnMessage] by { assert [Send(WarnMessage)][1..] == []; }
  }

  /** Closing with players Al and Bo: the notice, then one removal per player, in order. */
  lemma CloseAccessExample()
    ensures Sent([Send(ClosingNotice)] + RemoveCommands(["Al", "Bo"]))
         == [ClosingNotice, "fwhitelist remove Al", "fwhitelist remove Bo"]
  {
    var t := [Send(ClosingNotice)] + RemoveCommands(["Al", "Bo"]);
    var r := RemoveCommands(["Al", "Bo"]);
    assert r[0] == Send("fwhitelist remove Al") && r[1] == Send("fwhitelist remove Bo");
    assert t == [Send(ClosingNotice), Send("fwhitelist remove Al"), Send("fwhitelist remove Bo")];
    assert t[1..] == [Send("fwhitelist remove Al"), Send("fwhitelist remove Bo")];
    assert t[1..][1..] == [Send("fwhitelist remove Bo")];
    assert t[1..][1..][1..] == [];
  }

  // ---------------------------------------------------------------------
  // Console commands
  // ---------------------------------------------------------------------

  /** What a console line asks for. */
  datatype ConsoleCommand = Update | BackupNow | Reboot | StopAll | Forward(line: string)

  /** The `switch input` of Run: four keywords, everything else is passed to the process. */
  function ParseConsole(input: string): (c: ConsoleCommand)
    ensures c.Forward? <==> input !in ["update", "backup", "reboot", "stop"]
    ensures c.Forward? ==> c.line == input
  {
    if input == "update" then Update
    else if input == "backup" then BackupNow
    else if input == "reboot" then Reboot
    else if input == "stop" then StopAll
    else Forward(input)
  }

  /** How the event loop goes on after handling an input. */
  datatype LoopOutcome = Continue | Exit | Panic(reason: string)

  /** The launcher's server handle, reduced to its configuration and what it has done so far. */
  class Server {
    /** `Config.Players` (the nicknames, in configured order). */
    const players: seq<string>
    /** Every step taken so far, in order. */
    var trace: seq<Io>

    constructor (players: seq<string>)
      ensures this.players == players && trace == []
    {
      this.players := players;
      trace := [];
    }

    /** `Server.Backup`: quiesce autosave, force a save, archive, resume autosave; an archive error is returned at once. */
    method Backup(archiveError: Option<string>) returns (err: Option<string>)
      modifies this
      ensures trace == old(trace) + BackupSaga(archiveError)
      ensures err == archiveError
    {
      trace := trace + [Listen(SaveOffAck)];
      trace := trace + [Send("save-off")];
      trace := trace + [Listen(SaveAllAck)];
      trace := trace + [Send("save-all")];
      trace := trace + [Archive];
      if archiveError.Some? {
        return archiveError;
      }
      trace := trace + [Listen(SaveOnAck)];
      trace := trace + [Send("save-on")];
      err := None;
    }

    /** `Server.Stop`: ask the process to stop (waiting for it and its workers is not modelled). */
    method Stop()
      modifies this
      ensures trace == old(trace) + [Send("stop")]
    {
      trace := trace + [Send("stop")];
    }

    /** The CloseAccess handler: the notice, then one removal per player. */
    method CloseAccess()
      modifies this
      ensures trace == old(trace) + [Send(ClosingNotice)] + RemoveCommands(players)
    {
      trace := trace + [Send(ClosingNotice)];
      for i := 0 to |players|
        invariant trace == old(trace) + [Send(ClosingNotice)] + RemoveCommands(players[..i])
      {
        assert RemoveCommands(players[..i + 1]) == RemoveCommands(players[..i]) + [Send("fwhitelist remove " + players[i])];
        trace := trace + [Send("fwhitelist remove " + players[i])];
      }
      assert players[..|players|] == players;
    }

    /** The OpenAccess handler: one addition per player. */
    method OpenAccess()
      modifies this
      ensures trace == old(trace) + AddCommands(players)
    {
      for i := 0 to |players|
        invariant trace == old(trace) + AddCommands(players[..i])
      {
        assert AddCommands(players[..i + 1]) == AddCommands(players[..i]) + [Send("fwhitelist add " + players[i])];
        trace := trace + [Send("fwhitelist add " + players[i])];
      }
      assert players[..|players|] == players;
    }

    /**
     * The Warn handler: ask for the player listing; listing is the line the
     * analyzer delivers, so it contains the query.
     */
    method WarnPlayers(listing: string)
      requires Contains(listing, PlayerListQuery)
      modifies this
      ensures trace == old(trace) + WarnSteps(listing)
    {
      trace := trace + [Listen(PlayerListQuery)];
      trace := trace + [Send("list")];
      if !Contains(listing, EmptyServerMarker) {
        trace := trace + [Send(WarnMessage)];
      }
    }

    /** A command from the scheduler. Errors of the backup are only logged. */
    method HandleInner(cmd: InnerCmd, archiveError: Option<string>, listing: string)
      requires cmd == InnerCmd.Warn ==> Contains(listing, PlayerListQuery)
      modifies this
      ensures cmd == InnerCmd.Backup ==> trace == old(trace) + BackupSaga(archiveError)
      ensures cmd == InnerCmd.CloseAccess ==> trace == old(trace) + [Send(ClosingNotice)] + RemoveCommands(players)
      ensures cmd == InnerCmd.OpenAccess ==> trace == old(trace) + AddCommands(players)
      ensures cmd == InnerCmd.Warn ==> trace == old(trace) + WarnSteps(listing)
    {
      match cmd
      case Backup =>
        var _ := Backup(archiveError);
      case CloseAccess =>
        CloseAccess();
      case OpenAccess =>
        OpenAccess();
      case Warn =>
        WarnPlayers(listing);
    }

    /**
     * A console line. `update` stops, archives, refreshes and restarts (an
     * archive error panics); `backup` runs the saga; `reboot` stops and
     * restarts; `stop` leaves the loop, which then stops the process; any
     * other line is written to the process unchanged.
     */
    method HandleConsole(input: string, archiveError: Option<string>) returns (outcome: LoopOutcome)
      modifies this
      ensures ParseConsole(input) == Update ==>
        if archiveError.None? then outcome == Continue && trace == old(trace) + [Send("stop"), Archive, Refresh, Launch]
        else outcome == Panic(archiveError.value) && trace == old(trace) + [Send("stop"), Archive]
      ensures ParseConsole(input) == BackupNow ==> outcome == Continue && trace == old(trace) + BackupSaga(archiveError)
      ensures ParseConsole(input) == Reboot ==> outcome == Continue && trace == old(trace) + [Send("stop"), Launch]
      ensures ParseConsole(input) == StopAll ==> outcome == Exit && trace == old(trace) + [Send("stop")]
      ensures ParseConsole(input).Forward? ==> outcome == Continue && trace == old(trace) + [Send(input)]
    {
      match ParseConsole(input)
      case Update =>
        Stop();
        trace := trace + [Archive];
        if archiveError.Some? {
          return Panic(archiveError.value);
        }
        trace := trace + [Refresh, Launch];
        outcome := Continue;
      case BackupNow =>
        var _ := Backup(archiveError);
        outcome := Continue;
      case Reboot =>
        Stop();
        trace := trace + [Launch];
        outcome := Continue;
      case StopAll =>
        Stop();
        outcome := Exit;
      case Forward(line) =>
        trace := trace + [Send(line)];
        outcome := Continue;
    }
  }
}
