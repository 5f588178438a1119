/** The flag words of work items and work queues, and what each bit means. */
module Flags {

  const WORK_RUNNING_BIT: bv32 := 0
  const WORK_CANCELING_BIT: bv32 := 1
  const WORK_QUEUED_BIT: bv32 := 2
  const WORK_DELAYED_BIT: bv32 := 3
  const WORK_FLUSHING_BIT: bv32 := 4
  const WORK_MASK: bv32 := 0x1F

  const WORK_QUEUE_STARTED_BIT: bv32 := 0
  const WORK_QUEUE_BUSY_BIT: bv32 := 1
  const WORK_QUEUE_DRAIN_BIT: bv32 := 2
  const WORK_QUEUE_PLUGGED_BIT: bv32 := 3
  const WORK_QUEUE_STOP_BIT: bv32 := 4
  const WORK_QUEUE_NO_YIELD_BIT: bv32 := 8

  function FlagTest(word: bv32, bit: bv32): bool
    requires bit < 32
  {
    word & (1 << bit) != 0
  }

  function FlagSet(word: bv32, bit: bv32): bv32
    requires bit < 32
  {
    word | (1 << bit)
  }

  function FlagClear(word: bv32, bit: bv32): bv32
    requires bit < 32
  {
    word & !(1 << bit)
  }

  datatype WorkFlags = WorkFlags(running: bool, canceling: bool, queued: bool, flushing: bool)

  datatype QueueFlags = QueueFlags(started: bool, busy: bool, drain: bool, plugged: bool, stop: bool, noYield: bool)

  const NoWorkFlags := WorkFlags(false, false, false, false)
  const NoQueueFlags := QueueFlags(false, false, false, false, false, false)

  predicate Idle(f: WorkFlags) { f == NoWorkFlags }

  function If(b: bool, word: bv32): bv32 { if b then word else 0 }

  /** The word that represents the flags of an item. */
  function WorkWord(f: WorkFlags): bv32 {
    If(f.running, 1) | If(f.canceling, 2) | If(f.queued, 4) | If(f.flushing, 16)
  }

  /** The word that represents the flags of a queue. */
  function QueueWord(f: QueueFlags): bv32 {
    If(f.started, 1) | If(f.busy, 2) | If(f.drain, 4) | If(f.plugged, 8) | If(f.stop, 16) | If(f.noYield, 256)
  }

  /** The bits by number: 0, 1, 2 and 4 of an item's word. */
  lemma WorkBits(f: WorkFlags)
    ensures WorkWord(f) & 0x01 != 0 <==> f.running
    ensures WorkWord(f) & 0x02 != 0 <==> f.canceling
    ensures WorkWord(f) & 0x04 != 0 <==> f.queued
    ensures WorkWord(f) & 0x10 != 0 <==> f.flushing
    ensures WorkWord(f) & 0xFFFFFFE8 == 0
  {
  }

  /** And 0 to 4 and 8 of a queue's. */
  lemma QueueBits(f: QueueFlags)
    ensures QueueWord(f) & 0x01 != 0 <==> f.started
    ensures QueueWord(f) & 0x02 != 0 <==> f.busy
    ensures QueueWord(f) & 0x04 != 0 <==> f.drain
    ensures QueueWord(f) & 0x08 != 0 <==> f.plugged
    ensures QueueWord(f) & 0x10 != 0 <==> f.stop
    ensures QueueWord(f) & 0x100 != 0 <==> f.noYield
    ensures QueueWord(f) & 0xFFFFFEE0 == 0
  {
  }

  /** Testing a bit of an item's word tells the flag that the bit stands for. */
  lemma WorkTests(f: WorkFlags)
    ensures FlagTest(WorkWord(f), WORK_RUNNING_BIT) == f.running
    ensures FlagTest(WorkWord(f), WORK_CANCELING_BIT) == f.canceling
    ensures FlagTest(WorkWord(f), WORK_QUEUED_BIT) == f.queued
    ensures FlagTest(WorkWord(f), WORK_FLUSHING_BIT) == f.flushing
    ensures WorkWord(f) & WORK_MASK == WorkWord(f)
    ensures WorkWord(f) & (4 | 1) != 0 <==> f.queued || f.running
    ensures WorkWord(f) == 0 <==> Idle(f)
  {
  }

  /** Setting or clearing it changes that flag and no other. */
  lemma WorkUpdates(f: WorkFlags)
    ensures FlagSet(WorkWord(f), WORK_RUNNING_BIT) == WorkWord(f.(running := true))
    ensures FlagSet(WorkWord(f), WORK_CANCELING_BIT) == WorkWord(f.(canceling := true))
    ensures FlagSet(WorkWord(f), WORK_QUEUED_BIT) == WorkWord(f.(queued := true))
    ensures FlagSet(WorkWord(f), WORK_FLUSHING_BIT) == WorkWord(f.(flushing := true))
    ensures FlagClear(WorkWord(f), WORK_RUNNING_BIT) == WorkWord(f.(running := false))
    ensures FlagClear(WorkWord(f), WORK_CANCELING_BIT) == WorkWord(f.(canceling := false))
    ensures FlagClear(WorkWord(f), WORK_QUEUED_BIT) == WorkWord(f.(queued := false))
    ensures FlagClear(WorkWord(f), WORK_FLUSHING_BIT) == WorkWord(f.(flushing := false))
  {
  }

  lemma QueueTests(f: QueueFlags)
    ensures FlagTest(QueueWord(f), WORK_QUEUE_STARTED_BIT) == f.started
    ensures FlagTest(QueueWord(f), WORK_QUEUE_BUSY_BIT) == f.busy
    ensures FlagTest(QueueWord(f), WORK_QUEUE_DRAIN_BIT) == f.drain
    ensures FlagTest(QueueWord(f), WORK_QUEUE_PLUGGED_BIT) == f.plugged
    ensures FlagTest(QueueWord(f), WORK_QUEUE_STOP_BIT) == f.stop
    ensures FlagTest(QueueWord(f), WORK_QUEUE_NO_YIELD_BIT) == f.noYield
    ensures QueueWord(f) & (2 | 4) != 0 <==> f.busy || f.drain
  {
  }

  /** For a queue too. */
  lemma QueueSets(f: QueueFlags)
    ensures FlagSet(QueueWord(f), WORK_QUEUE_BUSY_BIT) == QueueWord(f.(busy := true))
    ensures FlagSet(QueueWord(f), WORK_QUEUE_DRAIN_BIT) == QueueWord(f.(drain := true))
    ensures FlagSet(QueueWord(f), WORK_QUEUE_PLUGGED_BIT) == QueueWord(f.(plugged := true))
    ensures FlagSet(QueueWord(f), WORK_QUEUE_STOP_BIT) == QueueWord(f.(stop := true))
  {
  }

  /** WORK_CANCELING_BIT, the name under which the worker clears BUSY, is the BUSY bit. */
  lemma QueueClears(f: QueueFlags)
    ensures FlagClear(QueueWord(f), WORK_CANCELING_BIT) == QueueWord(f.(busy := false))
    ensures FlagClear(QueueWord(f), WORK_QUEUE_DRAIN_BIT) == QueueWord(f.(drain := false))
    ensures FlagClear(QueueWord(f), WORK_QUEUE_PLUGGED_BIT) == QueueWord(f.(plugged := false))
  {
  }

  /** Different flags have different words. */
  lemma WorkWordsAreFaithful(f: WorkFlags, g: WorkFlags)
    requires WorkWord(f) == WorkWord(g)
    ensures f == g
  {
    WorkTests(f);
    WorkTests(g);
  }

  lemma QueueWordsAreFaithful(p: QueueFlags, q: QueueFlags)
    requires QueueWord(p) == QueueWord(q)
    ensures p == q
  {
    QueueTests(p);
    QueueTests(q);
  }
}
