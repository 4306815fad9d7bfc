/** The first-boot script that grows the restored root, under failures and power losses at every command. */
module GrowRoot {
  import opened Basics
  import opened Plan

  /** What the state file says; the script starts with Partition when there is none. */
  datatype Phase = Partition | Filesystem | Cleanup

  /**
   * How one command goes: it runs, or the script ends there, by an error or a loss of power, with
   * `partial` deciding what the command had already done.
   */
  datatype Fault = Runs | Stops(partial: nat)

  /** The largest whole number of filesystem blocks in a partition. */
  function Fill(sectors: nat, block: nat): nat
    requires block > 0
  {
    sectors / block * block
  }

  /** Filling keeps whole blocks, leaves less than one block over and never shrinks what fits. */
  lemma FillCovers(fs: nat, sectors: nat, block: nat)
    requires block > 0 && fs % block == 0 && fs <= sectors
    ensures fs <= Fill(sectors, block) <= sectors < Fill(sectors, block) + block
    ensures Fill(sectors, block) % block == 0
  {
    DivBounds(sectors, block);
    MultipleMod(sectors / block, block);
    assert fs == fs / block * block;
    QuotientMonotone(fs / block, sectors / block, block);
    assert fs / block * block <= sectors / block * block;
  }

  /**
   * The board: sizes of the root in sectors as the disk allows, the table records, the running kernel
   * believes and the filesystem uses, and the files of the service.
   */
  class Board {
    const room: nat
    const block: nat
    var table: nat
    var kernel: nat
    var fs: nat
    var state: Option<Phase>
    var wants: bool
    var unitFile: bool
    var script: bool

    /** The phase the next run of the script would execute. */
    function NextPhase(): Phase
      reads this
    {
      if state.None? then Partition else state.value
    }

    /** 0: table to grow, 1: filesystem to grow, 2: only files to remove, 3: service disabled. */
    function Progress(): nat
      reads this
    {
      if !wants then 3
      else match NextPhase()
        case Partition => 0
        case Filesystem => 1
        case Cleanup => 2
    }

    /** Holds between any two commands. */
    ghost predicate Valid()
      reads this
    {
      && block > 0 && fs % block == 0
      && fs <= kernel <= table <= room
      && (Progress() >= 1 ==> table == room)
      && (Progress() >= 2 ==> fs == Fill(room, block))
      && (wants ==> unitFile && script)
    }

    /** A restored board: any disk at least as large as the image. */
    constructor (room: nat, block: nat, table: nat, fs: nat)
      requires block > 0 && fs % block == 0 && fs <= table <= room
      ensures Valid() && Progress() == 0
      ensures this.room == room && this.block == block && this.table == table && this.fs == fs
    {
      this.room, this.block, this.table, this.kernel, this.fs := room, block, table, table, fs;
      state, wants, unitFile, script := None, true, true, true;
    }

    /** Nothing about the board ever goes backwards. */
    twostate predicate Onward()
      reads this
    {
      && Progress() >= old(Progress()) && fs >= old(fs) && table >= old(table)
      && (old(!wants) ==> !wants)
    }

    /** `sfdisk` with `size=+`, then `sync`: until the sync is done a power loss can undo the write. */
    method GrowTable(sfdisk: Fault, sync: Fault) returns (go: bool)
      requires Valid() && Progress() == 0
      modifies this`table
      ensures Valid() && Onward()
      ensures go <==> sfdisk.Runs? && sync.Runs?
      ensures table in {old(table), room} && (go ==> table == room)
    {
      var previous := table;
      if sfdisk.Runs? || sfdisk.partial > 0 {
        table := room;
      }
      if sfdisk.Stops? {
        return false;
      }
      if sync.Stops? && sync.partial == 0 {
        table := previous;
      }
      return sync.Runs?;
    }

    /** The script from the top, in the boot it was started in. */
    method Run(faults: nat -> Fault, at: nat) returns (finished: bool)
      requires Valid() && wants && kernel == table
      modifies this
      ensures Valid() && Onward()
      ensures (forall i :: faults(i).Runs?) ==> finished && Progress() == if old(Progress()) == 0 then 1 else 3
      decreases 3 - Progress()
    {
      finished := false;
      if faults(at).Stops? {
        return;
      }
      match NextPhase()
      case Partition =>
        var go := GrowTable(faults(at + 1), faults(at + 2));
        if !go || (faults(at + 3).Stops? && faults(at + 3).partial == 0) {
          return;
        }
        state := Some(Filesystem);
        if faults(at + 3).Stops? {
          return;
        }
        if faults(at + 4).Runs? || faults(at + 4).partial > 0 {
          kernel := table;
        }
        finished := faults(at + 5).Runs?;
      case Filesystem =>
        var goal := Fill(kernel, block);
        FillCovers(fs, kernel, block);
        if faults(at + 1).Stops? {
          var reached := Max(fs, Min(faults(at + 1).partial, goal));
          FillCovers(fs, reached, block);
          fs := Fill(reached, block);
          return;
        }
        fs := goal;
        if faults(at + 2).Stops? && faults(at + 2).partial == 0 {
          return;
        }
        state := Some(Cleanup);
        if faults(at + 2).Stops? {
          return;
        }
        finished := Run(faults, at + 3);
      case Cleanup =>
        finished := Remove(faults, at + 1);
    }

    /** `rm -f` of link, unit, state and script, in that order. */
    method Remove(faults: nat -> Fault, at: nat) returns (finished: bool)
      requires Valid() && wants && state == Some(Cleanup)
      modifies this`wants, this`unitFile, this`state, this`script
      ensures Valid() && Onward()
      ensures (forall i :: faults(i).Runs?) ==> finished && Progress() == 3
    {
      finished := false;
      if faults(at).Stops? {
        return;
      }
      wants := false;
      if faults(at + 1).Stops? {
        return;
      }
      unitFile := false;
      if faults(at + 2).Stops? {
        return;
      }
      state := None;
      if faults(at + 3).Stops? {
        return;
      }
      script := false;
      finished := faults(at + 4).Runs?;
    }

    /** Power on: the kernel reads the table, and the service runs if it is enabled and complete. */
    method Boot(faults: nat -> Fault) returns (finished: bool)
      requires Valid()
      modifies this
      ensures Valid() && Onward()
      ensures (forall i :: faults(i).Runs?) ==>
                finished && Progress() == if old(Progress()) == 0 then 1 else 3
      ensures old(!wants) ==> table == old(table) && fs == old(fs) && state == old(state)
    {
      kernel := table;
      if wants && unitFile && script {
        finished := Run(faults, 0);
      } else {
        finished := true;
      }
    }
  }

  /** Any number of boots, each interrupted wherever `faults` says. */
  method Live(board: Board, boots: nat, faults: nat -> nat -> Fault)
    requires board.Valid()
    modifies board
    ensures board.Valid()
    ensures board.Progress() >= old(board.Progress()) && board.fs >= old(board.fs)
  {
    for i := 0 to boots
      invariant board.Valid()
      invariant board.Progress() >= old(board.Progress()) && board.fs >= old(board.fs)
    {
      var finished := board.Boot(faults(i));
    }
  }

  /**
   * However a board was interrupted before, two boots without faults leave the filesystem filling the
   * disk to its last whole block, the table covering it, and the service disabled.
   */
  method TwoCleanBoots(board: Board, boots: nat, faults: nat -> nat -> Fault)
    requires board.Valid()
    modifies board
    ensures board.Valid() && !board.wants
    ensures board.table == board.room && board.fs == Fill(board.room, board.block)
  {
    Live(board, boots, faults);
    var first := board.Boot(_ => Runs);
    var second := board.Boot(_ => Runs);
  }
}
