/**
  The PMC stream-switch device: its register file, holding the single
  control word R_CFG, and the two operations that change it, a register
  write and a device reset. Each of them ends with sss_notify_all, the
  broadcast that tells every endpoint to re-resolve its routing.
 */
module PmcDevice {
  import opened PmcRemotes
  import opened PmcTables
  import opened PmcResolver

  /** R_CFG: the index of the control word in the register file. */
  const RCfg: nat := 0

  /** R_MAX: the number of registers. */
  const RegCount: nat := RCfg + 1

  /**
    The value dep_register_reset gives a register: the access info of R_CFG
    names no reset value, so it resets to zero.
   */
  function ResetValue(reg: nat): bv32
    requires reg < RegCount
  {
    0
  }

  class PmcSss {
    /** regs: the register file, `uint32_t regs[R_MAX]`. */
    const regs: array<bv32>

    /**
      The control words the broadcasts made visible, oldest first: one entry
      per call of sss_notify_all, holding R_CFG as it was at that moment.
     */
    ghost var Notified: seq<bv32>

    ghost predicate Valid()
      reads this
    {
      regs.Length == RegCount
    }

    /** The control word. */
    function Cfg(): bv32
      reads this, regs
      requires Valid()
    {
      regs[RCfg]
    }

    /** A new device: its registers are zero and nothing has been broadcast yet. */
    constructor ()
      ensures Valid() && fresh(regs)
      ensures Cfg() == 0
      ensures Notified == []
    {
      regs := new bv32[RegCount](_ => 0);
      Notified := [];
    }

    /**
      sss_notify_all: one broadcast to every endpoint; each listener then
      resolves its routing against the current control word.
     */
    method NotifyAll()
      requires Valid()
      modifies this
      ensures Valid()
      ensures Notified == old(Notified) + [Cfg()]
    {
      Notified := Notified + [regs[RCfg]];
    }

    /** r_cfg_post_write: after a write to R_CFG, broadcast unconditionally. */
    method CfgPostWrite(val: bv32)
      requires Valid()
      modifies this
      ensures Valid()
      ensures Notified == old(Notified) + [Cfg()]
    {
      NotifyAll();
    }

    /**
      A write of R_CFG: no bit is read-only (`.ro = 0`), so the whole value
      is stored, and the post-write hook then broadcasts exactly once,
      whether or not any field changed.
     */
    method Write(value: bv32)
      requires Valid()
      modifies this, regs
      ensures Valid()
      ensures Cfg() == value
      ensures Notified == old(Notified) + [value]
    {
      regs[RCfg] := value;
      CfgPostWrite(value);
    }

    /**
      sss_reset: every register goes back to its reset value, then one
      broadcast. The result does not depend on the state before, so a
      second reset leaves the control word as the first one did.
     */
    method Reset()
      requires Valid()
      modifies this, regs
      ensures Valid()
      ensures forall i :: 0 <= i < RegCount ==> regs[i] == ResetValue(i)
      ensures Cfg() == 0
      ensures Notified == old(Notified) + [0]
    {
      for i := 0 to RegCount
        invariant forall j :: 0 <= j < i ==> regs[j] == ResetValue(j)
        invariant Notified == old(Notified)
      {
        regs[i] := ResetValue(i);
      }
      assert regs[RCfg] == ResetValue(RCfg);
      NotifyAll();
    }

    /**
      pmc_get_sss_regfield as the device runs it: extract the sink's
      selector and scan the sink's row, stopping at the first match.
     */
    method GetRegField(sink: Remote) returns (indx: nat)
      requires Valid() && HasField(sink)
      ensures indx == RegField(sink, Cfg())
    {
      var reg := Field(regs[RCfg], sink);
      indx := FirstMatch(Mapping(sink), reg);
    }
  }

  /**
    The example routes of the AES and DMA0 rows, driven through the device:
    each write is followed by exactly one broadcast carrying the new word,
    and a reset disconnects every sink however often it is repeated.
   */
  method RoutingScenarios()
  {
    var d := new PmcSss();
    d.Write(0xE << 12);
    var r := d.GetRegField(AES);
    DocumentedRoutes();
    assert r == Index(DMA0);
    d.Write(0x5 << 12);
    r := d.GetRegField(AES);
    assert r == Index(DMA1);
    d.Write(0x2 << 12);
    r := d.GetRegField(AES);
    assert r == NoRemote;
    d.Write(0x3);
    r := d.GetRegField(DMA0);
    assert r == Index(PZM);
    assert |d.Notified| == 4 && d.Notified[3] == 0x3;

    d.Reset();
    var once := d.Cfg();
    d.Reset();
    assert d.Cfg() == once == 0;
    ZeroWordDisconnects(SHA);
    r := d.GetRegField(SHA);
    assert r == NoRemote;
    assert |d.Notified| == 6;
  }
}
