# PMC stream switch: routing decode

A Dafny model of the routing core of the PMC stream-switch device
(`hw/misc/sss-pmc.c`). The switch connects seven endpoints ("remotes"):
DMA0, DMA1, PTPI, AES, SHA, SBI and PZM. Six of them are sinks whose source
is chosen by a 4-bit selector field in one 32-bit control register,
`R_CFG`. Each sink's selector is decoded through that sink's row of codes.
A decode gives the ordinal of the selected source, or `NO_REMOTE` (7) when
the selector names no source.

The model has four modules:

- `PmcRemotes` (`remotes.dfy`): the endpoint enumeration, ordinals,
  `NO_REMOTE` and the population bit of each endpoint.
- `PmcTables` (`tables.dfy`): the four constant tables. These are the
  population masks, the field shifts (`-1` for PZM, which has no field), the
  identity encodings and the mapping rows (`0xFF` marks an unused slot).
  Their consistency is proved for every sink: the codes fit in 4 bits, each
  row is injective, population agrees with mapping, and code 0 is used
  nowhere.
- `PmcResolver` (`resolver.dfy`): field extraction, the first-match scan
  and `pmc_get_sss_regfield`. It also holds the routing properties: a
  two-way characterisation of the result, the round trip, the disconnected
  state, field independence, and that the high byte is ignored.
- `PmcDevice` (`device.dfy`): the device class. It holds the register file
  `regs` (an array of `R_MAX` = 1 words), register write, reset, and the
  resolver as the device runs it. `sss_notify_all` is recorded in a ghost
  log, `Notified`. Each broadcast appends the control word that listeners
  see when they re-resolve.

Where the intended behaviour and the code differ, the model follows the
code:

- The scan looks at ordinals 0..6 only. The NONE column (index 7) of a
  mapping row is never compared.
- No construction-time check of the tables exists in the code. The model
  instead proves the tables consistent (`PopulationMatchesMapping`,
  `MappingInjective`).
- The code does not reject a sink without a field. For PZM, `extract32`
  would be given a shift of -1, and the mapping table has no PZM row. The
  resolver therefore requires `HasField(sink)`, which holds for DMA0..SBI.
- `pmc_sss_population` has no entry for PZM, so PZM's mask is zero.

## Model

| member | source | states |
|---|---|---|
| PmcRemotes.Index | hw/misc/sss-pmc.c:21-32 | every endpoint's ordinal is below PMC_NUM_REMOTES, so it is never NO_REMOTE |
| PmcRemotes.FromIndex | hw/misc/sss-pmc.c:21-30 | each ordinal 0..6 names the endpoint whose ordinal it is |
| PmcRemotes.FromIndexOfIndex | hw/misc/sss-pmc.c:21-30 | ordinals name endpoints uniquely (FromIndex undoes Index) |
| PmcRemotes.Bit | hw/misc/sss-pmc.c:44-51 | `1 << r` is exactly one bit, the one at position r, so below bit PMC_NUM_REMOTES |
| PmcRemotes.BitsDisjoint | hw/misc/sss-pmc.c:44-51 | two endpoints' population bits overlap if and only if they are the same endpoint |
| PmcTables.Population | hw/misc/sss-pmc.c:44-52 | each population mask uses only the seven endpoint bits; PZM, which the initializer omits, has an empty mask |
| PmcTables.Shift | hw/misc/sss-pmc.c:54-62 | the shift is -1 exactly for PZM; every other shift is a multiple of 4 no greater than 20 |
| PmcTables.FieldShift | hw/misc/sss-pmc.c:54-60 | an addressable sink's 4-bit field fits in the 32-bit word |
| PmcTables.FieldShiftAgreesWithShift | hw/misc/sss-pmc.c:54-60 | the bit-vector offset equals the shift table's entry and is field-aligned |
| PmcTables.Encoding | hw/misc/sss-pmc.c:64-72 | each endpoint is encoded by its own ordinal |
| PmcTables.Mapping | hw/misc/sss-pmc.c:74-90 | each row has one slot per endpoint plus NONE, and the NONE slot is unused (0xFF) |
| PmcTables.CodesFitField | hw/misc/sss-pmc.c:76-81 | every used code fits in R_PMC_SSS_FIELD_LENGTH = 4 bits |
| PmcTables.PopulationMatchesMapping | hw/misc/sss-pmc.c:44-81 | for every sink DMA0..SBI, a source's population bit is set exactly when its mapping code is not 0xFF |
| PmcTables.MappingInjective | hw/misc/sss-pmc.c:76-81 | within a row, two sources with the same used code are the same source |
| PmcTables.ZeroIsNoCode | hw/misc/sss-pmc.c:76-81 | no row uses code 0 |
| PmcResolver.Extract4 | hw/misc/sss-pmc.c:108-109 | the extracted field is a 4-bit value |
| PmcResolver.Field | hw/misc/sss-pmc.c:108-109 | a sink's selector, read at its shift, is below 16 |
| PmcResolver.FieldsDisjoint | hw/misc/sss-pmc.c:54-60 | the fields of two different sinks share no bit |
| PmcResolver.Scan | hw/misc/sss-pmc.c:110-119 | the scan returns the first ordinal below NO_REMOTE whose code matches, with no match before it, or NO_REMOTE |
| PmcResolver.FirstMatch | hw/misc/sss-pmc.c:110-114 | the for/break loop returns exactly the first-match ordinal of the scan |
| PmcResolver.Decode | hw/misc/sss-pmc.c:110-119 | the result is at most NO_REMOTE; below it, the result's code equals the selector and no earlier source's code does |
| PmcResolver.RegField | hw/misc/sss-pmc.c:102-120 | the resolver always returns an ordinal in 0..7 |
| PmcResolver.DecodedSourceIsLegal | hw/misc/sss-pmc.c:110-114 | a 4-bit selector that decodes to a source is that source's code, and the source is legal for the sink |
| PmcResolver.LegalCodeDecodes | hw/misc/sss-pmc.c:110-114 | the code of a legal source decodes to that source (no earlier source shares it) |
| PmcResolver.DecodesToIff | hw/misc/sss-pmc.c:110-114 | a 4-bit selector decodes to src if and only if src is legal and the selector is src's code |
| PmcResolver.ResolvesToIff | hw/misc/sss-pmc.c:102-120 | a sink resolves to src if and only if src is legal and the sink's field holds src's code |
| PmcResolver.DisconnectedIff | hw/misc/sss-pmc.c:115-119 | a sink resolves to NO_REMOTE if and only if its field holds the code of none of its legal sources; the 0xFF slots never match |
| PmcResolver.ResolvesToLegalSource | hw/misc/sss-pmc.c:102-120 | every resolution is NO_REMOTE or a source legal for the sink |
| PmcResolver.RoundTrip | hw/misc/sss-pmc.c:108-114 | writing a legal source's code into the sink's field, whatever the rest of the word holds, makes the sink resolve to that source |
| PmcResolver.DependsOnlyOnOwnField | hw/misc/sss-pmc.c:108-109 | words that agree on a sink's field bits give that sink the same resolution |
| PmcResolver.SetFieldKeepsOthers | hw/misc/sss-pmc.c:54-60 | changing one sink's field leaves every other sink's resolution unchanged |
| PmcResolver.HighByteIgnored | hw/misc/sss-pmc.c:54-60 | bits 24..31 of the word affect no sink's resolution |
| PmcResolver.ZeroWordDisconnects | hw/misc/sss-pmc.c:130-131 | in the all-zero reset word every sink DMA0..SBI resolves to NO_REMOTE |
| PmcResolver.DocumentedRoutes | hw/misc/sss-pmc.c:76-81 | AES with 0xE gives DMA0, with 0x5 gives DMA1, with 0x2 gives NO_REMOTE; DMA0 with 0x3 gives PZM |
| PmcDevice.PmcSss.constructor | hw/misc/sss-pmc.c:94-100 | a new device has a one-word register file holding 0 and has broadcast nothing |
| PmcDevice.PmcSss.NotifyAll | hw/misc/sss-pmc.c:122-127 | one broadcast, carrying the current control word, is appended to the log |
| PmcDevice.PmcSss.CfgPostWrite | hw/misc/sss-pmc.c:122-127 | the post-write hook broadcasts exactly once |
| PmcDevice.PmcSss.Write | hw/misc/sss-pmc.c:129-131 | with no read-only bits, the whole value is stored, then exactly one broadcast carries it, whether or not a field changed |
| PmcDevice.PmcSss.Reset | hw/misc/sss-pmc.c:192-202 | every register returns to its reset value (0 for R_CFG), then exactly one broadcast; the result does not depend on the prior state, so reset is idempotent |
| PmcDevice.PmcSss.GetRegField | hw/misc/sss-pmc.c:102-120 | the device's resolver returns the resolution of the sink under the current control word |

## Left out

- The MMIO transport `sss_ops` (little-endian framing, 4-byte accesses) is I/O plumbing. `Write` is the register write after the transport has delivered the value.
- `pmc_sss_realize` and `pmc_sss_init` are not modelled: memory regions, `DepRegisterInfo` wiring, and the QOM link and child properties of `rx_devs`/`tx_devs`. They are host framework wiring with no routing logic. `pmc_sss_init` also hands the tables and the resolver to the switch base. The base (`sss-base`) is not part of this model.
- The `pmc_sss_remote_names` strings are left out. They only label properties. The model names endpoints by its datatype's constructors.
- The snapshot description `vmstate_pmc_sss`, class init and type registration are serialization and framework boilerplate.
- `sss_notify_all` lives in the switch base, which is not part of this model. It is modelled as the ghost log `Notified`. What listeners do when notified is not modelled.
- `dep_register_write` and `dep_register_reset` are not part of this model. A write is modelled as storing the whole value, since `.ro = 0`. A reset stores 0, since `R_CFG`'s access info gives no reset value. Any other write semantics of the register framework (write-one-to-clear and the like) is not modelled, because `R_CFG` declares none.
- `extract32` is modelled as `(word >> shift) & 0xF`. Its assertion on a negative shift is not modelled. Instead, the resolver requires a sink with a field.
- `PmcResolver.RegField`: the resolver is not modelled for PZM. In the code PZM would trigger `extract32`'s assertion and read past the mapping table, so the behaviour is undefined rather than a result.
- No data is transferred between endpoints. Only the routing decision is modelled.
