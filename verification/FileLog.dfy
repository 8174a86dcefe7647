/**
 filewrite's transactions as operations of the log: where the log lies on the disk, what they log
 there, and that they never make it panic.
 */
module FileLog {
  import opened Blocks
  import opened LogLayout
  import opened LogMachine
  import opened LogTheorems
  import FsLayout
  import FsState
  import FsContents
  import FsFiles
  import File

  /** The log as initlog finds it in the super block. */
  function LogOf(sb: FsState.Super): Layout { Layout(sb.logstart, sb.nlog, sb.size) }

  /** An operation that logs these blocks and no others is one that the machine of this budget runs. */
  ghost predicate Client(c: Config, blocks: set<nat>) {
    forall s: State, p: nat, b: nat, v: Block ::
      p < |s.procs| && s.procs[p].InOp? && s.procs[p].pending.Nothing? && s.procs[p].logged <= blocks && b in blocks && !Locked(s, b)
      ==> DoCheck(c, s, p, b, v) != Blocked
  }

  lemma FitsClient(sb: FsState.Super, t: FsContents.Tally)
    requires sb.Ok() && sb.size <= FsLayout.BPB && File.Fits(sb, t)
    ensures Client(Config(LogOf(sb), 7), t.All())
  {
    forall s: State, p: nat, b: nat, v: Block |
      p < |s.procs| && s.procs[p].InOp? && s.procs[p].pending.Nothing? && s.procs[p].logged <= t.All() && b in t.All() && !Locked(s, b)
      ensures DoCheck(Config(LogOf(sb), 7), s, p, b, v) != Blocked
    {
      FsFiles.SubsetSize(s.procs[p].logged + {b}, t.All());
    }
  }

  /**
   On a disk with one bitmap block and a log of LOGSIZE blocks, as mkfs makes it, filewrite's
   transactions never make the log panic, however many run together: each logs home blocks only, at
   most seven of them, and no run of such operations panics. Of the ten blocks that a bigger bitmap
   allows, some runs do.
   */
  lemma WindowsAndTheLog(sb: FsState.Super, history: seq<FsContents.Tally>)
    requires sb.Ok() && sb.nlog == LOGSIZE && sb.size <= FsLayout.BPB && forall j :: 0 <= j < |history| ==> File.Fits(sb, history[j])
    ensures forall j :: 0 <= j < |history| ==> Client(Config(LogOf(sb), 7), history[j].All())
    ensures PanicFree(Config(LogOf(sb), 7))
    ensures sb.logstart + sb.nlog + LOGSIZE <= sb.size ==> !PanicFree(Config(LogOf(sb), 10))
  {
    hide Client, File.Fits;
    forall j | 0 <= j < |history| ensures Client(Config(LogOf(sb), 7), history[j].All()) {
      FitsClient(sb, history[j]);
    }
    forall d: Disk, nproc: nat, steps: seq<Step> | GoodDisk(LogOf(sb), d)
      ensures Run(Config(LogOf(sb), 7), Rebooted(d, nproc, 0), steps) != Panic
    {
      RunNeverPanics(Config(LogOf(sb), 7), d, nproc, steps);
    }
    if sb.logstart + sb.nlog + LOGSIZE <= sb.size { PanicFreeExactly(Config(LogOf(sb), 10)); }
  }
}
