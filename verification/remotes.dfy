/**
  The endpoints ("remotes") of the PMC stream switch: a closed enumeration
  of seven named endpoints and the sentinel ordinal NO_REMOTE that follows
  them. Every table of the switch is indexed by the ordinal of an endpoint.
 */
module PmcRemotes {

  /** The seven endpoints, in the order of their ordinals. */
  datatype Remote = DMA0 | DMA1 | PTPI | AES | SHA | SBI | PZM

  /** PMC_NUM_REMOTES: the number of endpoints. */
  const NumRemotes: nat := 7

  /** NO_REMOTE: the ordinal that follows the last endpoint; it means "no source". */
  const NoRemote: nat := NumRemotes

  /** The ordinal of an endpoint, its position in the enumeration. */
  function Index(r: Remote): (i: nat)
    ensures i < NumRemotes
    ensures i != NoRemote
  {
    match r
    case DMA0 => 0
    case DMA1 => 1
    case PTPI => 2
    case AES => 3
    case SHA => 4
    case SBI => 5
    case PZM => 6
  }

  /** The endpoint with a given ordinal; the inverse of Index. */
  function FromIndex(i: nat): (r: Remote)
    requires i < NumRemotes
    ensures Index(r) == i
  {
    if i == 0 then DMA0
    else if i == 1 then DMA1
    else if i == 2 then PTPI
    else if i == 3 then AES
    else if i == 4 then SHA
    else if i == 5 then SBI
    else PZM
  }

  /** Ordinals name endpoints uniquely: FromIndex undoes Index. */
  lemma FromIndexOfIndex(r: Remote)
    ensures FromIndex(Index(r)) == r
  {
    match r
    case DMA0 =>
    case DMA1 =>
    case PTPI =>
    case AES =>
    case SHA =>
    case SBI =>
    case PZM =>
  }

  /** `1 << r`: the bit that stands for endpoint r in a population mask. */
  function Bit(r: Remote): (b: bv32)
    ensures b != 0 && b & (b - 1) == 0
    ensures b >> Index(r) == 1
    ensures b < (1 << NumRemotes)
  {
    1 << Index(r)
  }

  /** Two endpoints' bits overlap exactly when they are the same endpoint. */
  lemma BitsDisjoint(a: Remote, b: Remote)
    ensures Bit(a) & Bit(b) != 0 <==> a == b
  {
    match a
    case DMA0 =>
    case DMA1 =>
    case PTPI =>
    case AES =>
    case SHA =>
    case SBI =>
    case PZM =>
  }
}
