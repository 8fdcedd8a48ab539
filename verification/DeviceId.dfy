// Device identities and the masked comparison of aalbus_itr_get_device.
module DeviceId {
  // struct aal_device_addr and struct aal_device_id. memcmp compares the whole
  // structure, so the bytes the compiler pads it with are part of it.
  datatype DeviceAddr = DeviceAddr(bustype: bv32, busnum: bv32, devicenum: bv16, functnum: bv16, subdevnum: bv16,
                                   instanceNum: bv16, socketnum: bv16, padding: bv16)
  datatype DeviceId = DeviceId(devaddr: DeviceAddr, devicetype: bv32, vendor: bv32, padding: bv32, pipGUID: bv64,
                               deviguid: seq<char>, ahmGUID: bv64, afuGUIDl: bv64, afuGUIDh: bv64)

  // AAL_DEV_ID_MASK_*
  const MASK_VENDOR: bv32 := 0x0002
  const MASK_AHMGUID: bv32 := 0x0004
  const MASK_AFUGUID: bv32 := 0x0008
  const MASK_PIPGUID: bv32 := 0x0010
  const MASK_DEVID: bv32 := 0x0020
  const MASK_SUBDEVNUM: bv32 := 0x0040
  const MASK_BUSTYPE: bv32 := 0x0080
  const MASK_DEVTYPE: bv32 := 0x0100
  const MASK_ADDR: bv32 := 0x0200
  const MASK_DEVNUM: bv32 := 0x0400
  const MASK_BUSNUM: bv32 := 0x0800
  const MASK_SOCKETNUM: bv32 := 0x1000

  datatype Criterion = Vendor | AhmGuid | AfuGuid | PipGuid | DevId | SubDevNum | BusType | DevType | Addr | DevNum | BusNum | SocketNum

  function Bit(c: Criterion): bv32 {
    match c
    case Vendor => MASK_VENDOR
    case AhmGuid => MASK_AHMGUID
    case AfuGuid => MASK_AFUGUID
    case PipGuid => MASK_PIPGUID
    case DevId => MASK_DEVID
    case SubDevNum => MASK_SUBDEVNUM
    case BusType => MASK_BUSTYPE
    case DevType => MASK_DEVTYPE
    case Addr => MASK_ADDR
    case DevNum => MASK_DEVNUM
    case BusNum => MASK_BUSNUM
    case SocketNum => MASK_SOCKETNUM
  }

  predicate HasBit(mask: bv32, bit: bv32) {
    mask & bit != 0
  }

  predicate Asks(mask: bv32, c: Criterion) {
    HasBit(mask, Bit(c))
  }

  // Of the AFU GUID only the low word is compared.
  predicate Agree(c: Criterion, want: DeviceId, got: DeviceId) {
    match c
    case Vendor => want.vendor == got.vendor
    case AhmGuid => want.ahmGUID == got.ahmGUID
    case AfuGuid => want.afuGUIDl == got.afuGUIDl
    case PipGuid => want.pipGUID == got.pipGUID
    case DevId => want == got
    case SubDevNum => want.devaddr.subdevnum == got.devaddr.subdevnum
    case BusType => want.devaddr.bustype == got.devaddr.bustype
    case DevType => want.devicetype == got.devicetype
    case Addr => want.devaddr == got.devaddr
    case DevNum => want.devaddr.devicenum == got.devaddr.devicenum
    case BusNum => want.devaddr.busnum == got.devaddr.busnum
    case SocketNum => want.devaddr.socketnum == got.devaddr.socketnum
  }

  // The device has everything the mask asks for.
  ghost predicate Matches(mask: bv32, want: DeviceId, got: DeviceId) {
    forall c {:trigger Agree(c, want, got)} :: Asks(mask, c) ==> Agree(c, want, got)
  }

  lemma AsksEither(a: bv32, b: bv32, c: Criterion)
    ensures Asks(a | b, c) <==> Asks(a, c) || Asks(b, c)
  {
    hide Bit, HasBit;
    OrAnd(a, b, Bit(c));
  }

  lemma OrAnd(a: bv32, b: bv32, bit: bv32)
    ensures HasBit(a | b, bit) <==> HasBit(a, bit) || HasBit(b, bit)
  {
    Distributes(a, b, bit);
    EitherZero(a & bit, b & bit);
  }

  lemma Distributes(a: bv32, b: bv32, bit: bv32)
    ensures (a | b) & bit == (a & bit) | (b & bit)
  {
  }

  lemma EitherZero(x: bv32, y: bv32)
    ensures x | y == 0 <==> x == 0 && y == 0
  {
  }

  // Asking for two masks at once is asking for each of them.
  lemma MatchesBoth(a: bv32, b: bv32, want: DeviceId, got: DeviceId)
    ensures Matches(a | b, want, got) <==> Matches(a, want, got) && Matches(b, want, got)
  {
    hide Asks, Agree;
    forall c: Criterion
      ensures Asks(a | b, c) <==> Asks(a, c) || Asks(b, c)
    {
      AsksEither(a, b, c);
    }
    if Matches(a | b, want, got) {
      forall c | Asks(a, c) || Asks(b, c)
        ensures Agree(c, want, got)
      {
        AsksEither(a, b, c);
      }
    }
  }

  predicate AddressField(c: Criterion) {
    c.SubDevNum? || c.BusType? || c.DevNum? || c.BusNum? || c.SocketNum?
  }

  // The address bit implies every bit of an address field, the identity bit all bits.
  lemma WholeImpliesParts(mask: bv32, want: DeviceId, got: DeviceId)
    requires Matches(mask, want, got)
    ensures Asks(mask, Addr) ==> forall c :: AddressField(c) ==> Agree(c, want, got)
    ensures Asks(mask, DevId) ==> want == got && forall c :: Agree(c, want, got)
  {
    hide Asks;
    assert Asks(mask, Addr) ==> Agree(Addr, want, got);
    assert Asks(mask, DevId) ==> Agree(DevId, want, got);
  }

  // Which bit of the mask asks for which field. The AFU GUID has two words; no
  // bit asks for the high one alone.
  lemma MatchesIs(mask: bv32, want: DeviceId, got: DeviceId)
    ensures Matches(mask, want, got) <==>
      && (mask & 0x2 != 0 ==> want.vendor == got.vendor)
      && (mask & 0x4 != 0 ==> want.ahmGUID == got.ahmGUID)
      && (mask & 0x8 != 0 ==> want.afuGUIDl == got.afuGUIDl)
      && (mask & 0x10 != 0 ==> want.pipGUID == got.pipGUID)
      && (mask & 0x20 != 0 ==> want == got)
      && (mask & 0x40 != 0 ==> want.devaddr.subdevnum == got.devaddr.subdevnum)
      && (mask & 0x80 != 0 ==> want.devaddr.bustype == got.devaddr.bustype)
      && (mask & 0x100 != 0 ==> want.devicetype == got.devicetype)
      && (mask & 0x200 != 0 ==> want.devaddr == got.devaddr)
      && (mask & 0x400 != 0 ==> want.devaddr.devicenum == got.devaddr.devicenum)
      && (mask & 0x800 != 0 ==> want.devaddr.busnum == got.devaddr.busnum)
      && (mask & 0x1000 != 0 ==> want.devaddr.socketnum == got.devaddr.socketnum)
  {
    hide HasBit, Asks, Agree, Matches;
    MatchesEach(mask, want, got);
    WhichBits(mask);
    WhichFields(want, got);
    WhichAddressFields(want, got);
    HasBitIs(mask, 0x2);
    HasBitIs(mask, 0x4);
    HasBitIs(mask, 0x8);
    HasBitIs(mask, 0x10);
    HasBitIs(mask, 0x20);
    HasBitIs(mask, 0x40);
    HasBitIs(mask, 0x80);
    HasBitIs(mask, 0x100);
    HasBitIs(mask, 0x200);
    HasBitIs(mask, 0x400);
    HasBitIs(mask, 0x800);
    HasBitIs(mask, 0x1000);
  }

  lemma HasBitIs(mask: bv32, bit: bv32)
    ensures HasBit(mask, bit) <==> mask & bit != 0
  {
  }

  // The same, one criterion after the other.
  predicate Each(mask: bv32, want: DeviceId, got: DeviceId) {
    && (Asks(mask, Vendor) ==> Agree(Vendor, want, got))
    && (Asks(mask, AhmGuid) ==> Agree(AhmGuid, want, got))
    && (Asks(mask, AfuGuid) ==> Agree(AfuGuid, want, got))
    && (Asks(mask, PipGuid) ==> Agree(PipGuid, want, got))
    && (Asks(mask, DevId) ==> Agree(DevId, want, got))
    && (Asks(mask, SubDevNum) ==> Agree(SubDevNum, want, got))
    && (Asks(mask, BusType) ==> Agree(BusType, want, got))
    && (Asks(mask, DevType) ==> Agree(DevType, want, got))
    && (Asks(mask, Addr) ==> Agree(Addr, want, got))
    && (Asks(mask, DevNum) ==> Agree(DevNum, want, got))
    && (Asks(mask, BusNum) ==> Agree(BusNum, want, got))
    && (Asks(mask, SocketNum) ==> Agree(SocketNum, want, got))
  }

  lemma MatchesEach(mask: bv32, want: DeviceId, got: DeviceId)
    ensures Matches(mask, want, got) <==> Each(mask, want, got)
  {
    hide Asks, Agree;
    if Each(mask, want, got) {
      forall c: Criterion
        ensures Asks(mask, c) ==> Agree(c, want, got)
      {
        match c {
          case Vendor => case AhmGuid => case AfuGuid => case PipGuid => case DevId => case SubDevNum =>
          case BusType => case DevType => case Addr => case DevNum => case BusNum => case SocketNum =>
        }
      }
    }
  }

  lemma WhichBits(mask: bv32)
    ensures Asks(mask, Vendor) == HasBit(mask, 0x2)
    ensures Asks(mask, AhmGuid) == HasBit(mask, 0x4)
    ensures Asks(mask, AfuGuid) == HasBit(mask, 0x8)
    ensures Asks(mask, PipGuid) == HasBit(mask, 0x10)
    ensures Asks(mask, DevId) == HasBit(mask, 0x20)
    ensures Asks(mask, SubDevNum) == HasBit(mask, 0x40)
    ensures Asks(mask, BusType) == HasBit(mask, 0x80)
    ensures Asks(mask, DevType) == HasBit(mask, 0x100)
    ensures Asks(mask, Addr) == HasBit(mask, 0x200)
    ensures Asks(mask, DevNum) == HasBit(mask, 0x400)
    ensures Asks(mask, BusNum) == HasBit(mask, 0x800)
    ensures Asks(mask, SocketNum) == HasBit(mask, 0x1000)
  {
    hide HasBit;
  }

  lemma WhichFields(want: DeviceId, got: DeviceId)
    ensures Agree(Vendor, want, got) <==> want.vendor == got.vendor
    ensures Agree(AhmGuid, want, got) <==> want.ahmGUID == got.ahmGUID
    ensures Agree(AfuGuid, want, got) <==> want.afuGUIDl == got.afuGUIDl
    ensures Agree(PipGuid, want, got) <==> want.pipGUID == got.pipGUID
    ensures Agree(DevType, want, got) <==> want.devicetype == got.devicetype
    ensures Agree(DevId, want, got) <==> want == got
  {
  }

  lemma WhichAddressFields(want: DeviceId, got: DeviceId)
    ensures Agree(SubDevNum, want, got) <==> want.devaddr.subdevnum == got.devaddr.subdevnum
    ensures Agree(BusType, want, got) <==> want.devaddr.bustype == got.devaddr.bustype
    ensures Agree(Addr, want, got) <==> want.devaddr == got.devaddr
    ensures Agree(DevNum, want, got) <==> want.devaddr.devicenum == got.devaddr.devicenum
    ensures Agree(BusNum, want, got) <==> want.devaddr.busnum == got.devaddr.busnum
    ensures Agree(SocketNum, want, got) <==> want.devaddr.socketnum == got.devaddr.socketnum
  {
  }

  // The checks of aalbus_itr_get_device for a mask that is not null, in its order.
  method Passes(mask: bv32, want: DeviceId, got: DeviceId) returns (ok: bool)
    ensures ok <==> Matches(mask, want, got)
  {
    hide Asks;
    ok := Check(mask, Addr, want, got);
    if !ok { return; }
    ok := Check(mask, AhmGuid, want, got);
    if !ok { return; }
    ok := Check(mask, SocketNum, want, got);
    if !ok { return; }
    ok := Check(mask, BusNum, want, got);
    if !ok { return; }
    ok := Check(mask, DevNum, want, got);
    if !ok { return; }
    ok := Check(mask, SubDevNum, want, got);
    if !ok { return; }
    ok := Check(mask, BusType, want, got);
    if !ok { return; }
    ok := Check(mask, DevType, want, got);
    if !ok { return; }
    ok := Check(mask, AhmGuid, want, got);
    if !ok { return; }
    ok := Check(mask, AfuGuid, want, got);
    if !ok { return; }
    ok := Check(mask, PipGuid, want, got);
    if !ok { return; }
    ok := Check(mask, DevId, want, got);
    if !ok { return; }
    ok := Check(mask, Vendor, want, got);
    if !ok { return; }
    forall c: Criterion
      ensures Asks(mask, c) ==> Agree(c, want, got)
    {
      match c {
        case Vendor => case AhmGuid => case AfuGuid => case PipGuid => case DevId => case SubDevNum =>
        case BusType => case DevType => case Addr => case DevNum => case BusNum => case SocketNum =>
      }
    }
  }

  method Check(mask: bv32, c: Criterion, want: DeviceId, got: DeviceId) returns (ok: bool)
    ensures ok <==> (Asks(mask, c) ==> Agree(c, want, got))
  {
    ok := !Asks(mask, c) || Agree(c, want, got);
  }
}
