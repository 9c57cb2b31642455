/**
  The registered messages (raiden/encoding/messages.py, raiden/messages.py): their buffer layouts, the
  order in which `pack` writes the fields, and encoding and decoding by command identifier.
 */
module Messages {
  import opened Wrappers
  import opened BigEndian
  import opened NamedBuffer
  import Locks

  datatype FieldName =
    | Cmdid | Nonce | PaymentIdentifier | PaymentHashInvoice | ChainId | MessageIdentifier
    | CurrentProtocolVersion | DeliveredMessageIdentifier | Expiration | TokenNetworkAddress | Token
    | Recipient | Target | Initiator | ChannelIdentifier | Locksroot | SecretHash | Secret
    | TransferredAmount | LockedAmount | Amount | Fee | Signature

  datatype Kind =
    | Processed | Ping | Pong | SecretRequest | Unlock | LockedTransfer | RefundTransfer | RevealSecret
    | Delivered | LockExpired | ToDevice

  const UINT64: Option<Range> := Some(Range(0, UINT64_MAX))
  const UINT256: Option<Range> := Some(Range(0, UINT256_MAX))

  function FieldOf(name: FieldName): FieldSpec<FieldName> {
    match name
    case Cmdid => Field(name, 1, Some(Range(0, 255)))
    case Nonce | PaymentIdentifier | MessageIdentifier | DeliveredMessageIdentifier => Field(name, 8, UINT64)
    case CurrentProtocolVersion => Field(name, 1, Some(Range(0, 256)))
    case ChainId | Expiration | ChannelIdentifier | TransferredAmount | LockedAmount | Amount | Fee =>
      Field(name, 32, UINT256)
    case TokenNetworkAddress | Token | Recipient | Target | Initiator => Field(name, 20, None)
    case PaymentHashInvoice | Locksroot | SecretHash | Secret => Field(name, 32, None)
    case Signature => Field(name, 65, None)
  }

  function CommandId(kind: Kind): Byte {
    match kind
    case Processed => 0
    case Ping => 1
    case Pong => 2
    case SecretRequest => 3
    case Unlock => 4
    case LockedTransfer => 7
    case RefundTransfer => 8
    case RevealSecret => 11
    case Delivered => 12
    case LockExpired => 13
    case ToDevice => 14
  }

  function KindOf(cmdid: Byte): Option<Kind> {
    match cmdid
    case 0 => Some(Processed)
    case 1 => Some(Ping)
    case 2 => Some(Pong)
    case 3 => Some(SecretRequest)
    case 4 => Some(Unlock)
    case 7 => Some(LockedTransfer)
    case 8 => Some(RefundTransfer)
    case 11 => Some(RevealSecret)
    case 12 => Some(Delivered)
    case 13 => Some(LockExpired)
    case 14 => Some(ToDevice)
    case _ => None
  }

  /** The fields of a message after its command identifier and three bytes of padding. */
  function Body(kind: Kind): seq<FieldName> {
    match kind
    case Processed => [MessageIdentifier, Signature]
    case Ping => [Nonce, CurrentProtocolVersion, Signature]
    case Pong => [Nonce, Signature]
    case SecretRequest => [MessageIdentifier, PaymentIdentifier, SecretHash, Amount, Expiration, Signature]
    case Unlock =>
      [ChainId, MessageIdentifier, PaymentIdentifier, TokenNetworkAddress, Secret, Nonce, ChannelIdentifier,
       TransferredAmount, LockedAmount, Locksroot, Signature]
    case LockedTransfer =>
      [Nonce, ChainId, MessageIdentifier, PaymentIdentifier, PaymentHashInvoice, Expiration, TokenNetworkAddress,
       Token, ChannelIdentifier, Recipient, Target, Initiator, Locksroot, SecretHash, TransferredAmount,
       LockedAmount, Amount, Fee, Signature]
    case RefundTransfer =>
      [Nonce, ChainId, MessageIdentifier, PaymentIdentifier, Expiration, TokenNetworkAddress,
       Token, ChannelIdentifier, Recipient, Target, Initiator, Locksroot, SecretHash, TransferredAmount,
       LockedAmount, Amount, Fee, Signature]
    case RevealSecret => [MessageIdentifier, Secret, Signature]
    case Delivered => [DeliveredMessageIdentifier, Signature]
    case LockExpired =>
      [Nonce, ChainId, MessageIdentifier, TokenNetworkAddress, ChannelIdentifier, Recipient, Locksroot, SecretHash,
       TransferredAmount, LockedAmount, Signature]
    case ToDevice => [MessageIdentifier, Signature]
  }

  /** The order in which `pack` sets the fields. A refund has no room for an invoice hash. */
  function PackOrder(kind: Kind): seq<FieldName> {
    match kind
    case Unlock =>
      [ChainId, MessageIdentifier, PaymentIdentifier, Nonce, TokenNetworkAddress, ChannelIdentifier,
       TransferredAmount, LockedAmount, Locksroot, Secret, Signature]
    case LockedTransfer =>
      [ChainId, MessageIdentifier, PaymentIdentifier, PaymentHashInvoice, Nonce, TokenNetworkAddress, Token,
       ChannelIdentifier, TransferredAmount, LockedAmount, Recipient, Locksroot, Target, Initiator, Fee,
       Amount, Expiration, SecretHash, Signature]
    case RefundTransfer =>
      [ChainId, MessageIdentifier, PaymentIdentifier, Nonce, TokenNetworkAddress, Token,
       ChannelIdentifier, TransferredAmount, LockedAmount, Recipient, Locksroot, Target, Initiator, Fee,
       Amount, Expiration, SecretHash, Signature]
    case LockExpired =>
      [ChainId, Nonce, MessageIdentifier, TokenNetworkAddress, ChannelIdentifier, TransferredAmount, LockedAmount,
       Recipient, Locksroot, SecretHash, Signature]
    case _ => Body(kind)
  }

  function FieldsOf(names: seq<FieldName>): seq<FieldSpec<FieldName>> {
    if names == [] then [] else FieldsOf(Front(names)) + [FieldOf(Last(names))]
  }

  function Header(kind: Kind): seq<FieldSpec<FieldName>> {
    [Field(Cmdid, 1, Some(Range(CommandId(kind), CommandId(kind)))), Pad(3)]
  }

  function Layout(kind: Kind): seq<FieldSpec<FieldName>> {
    Header(kind) + FieldsOf(Body(kind))
  }

  // ---------------------------------------------------------------- messages

  /** A message as its class and its attributes. */
  datatype Message = Message(kind: Kind, fields: map<FieldName, Value>)

  datatype DecodeError = EmptyData | UnknownCommand | DataTooShort | InvalidValues

  function Attributes(kind: Kind): set<FieldName> {
    (set name | name in Body(kind)) + if kind == RefundTransfer then {PaymentHashInvoice} else {}
  }

  predicate Complete(m: Message) {
    m.fields.Keys == Attributes(m.kind)
  }

  predicate NumberIn(fields: map<FieldName, Value>, name: FieldName, low: int, high: int) {
    name in fields && fields[name].Num? && low <= fields[name].n <= high
  }

  predicate Wide(fields: map<FieldName, Value>, name: FieldName, width: nat) {
    name in fields && fields[name].Bytes? && |fields[name].bytes| == width
  }

  /** The checks of the message constructors. */
  predicate Constructible(kind: Kind, fields: map<FieldName, Value>) {
    && (kind in {Unlock, LockedTransfer, RefundTransfer, LockExpired} ==>
         && NumberIn(fields, Nonce, 1, UINT64_MAX) && NumberIn(fields, ChannelIdentifier, 0, UINT256_MAX)
         && NumberIn(fields, TransferredAmount, 0, UINT256_MAX) && NumberIn(fields, LockedAmount, 0, UINT256_MAX)
         && Wide(fields, Locksroot, 32))
    && (kind == Unlock ==> NumberIn(fields, PaymentIdentifier, 0, UINT64_MAX) && Wide(fields, Secret, 32))
    && (kind in {LockedTransfer, RefundTransfer} ==>
         && NumberIn(fields, PaymentIdentifier, 0, UINT64_MAX)
         && Wide(fields, Token, 20) && Wide(fields, Recipient, 20)
         && Wide(fields, Target, 20) && Wide(fields, Initiator, 20)
         && Fee in fields && fields[Fee].Num? && fields[Fee].n <= UINT256_MAX
         && NumberIn(fields, Amount, 0, UINT256_MAX) && NumberIn(fields, Expiration, 0, UINT256_MAX)
         && Wide(fields, SecretHash, 32))
  }

  function Items(names: seq<FieldName>, fields: map<FieldName, Value>): seq<(FieldName, Value)>
    requires forall name :: name in names ==> name in fields
  {
    seq(|names|, i requires 0 <= i < |names| => (names[i], fields[names[i]]))
  }

  /** A zeroed buffer whose first byte is the command identifier. */
  function Blank(kind: Kind): (data: seq<Byte>)
    ensures |data| == Size(Layout(kind)) && data != [] && data[0] == CommandId(kind)
    ensures forall i :: 0 < i < |data| ==> data[i] == 0
  {
    LayoutStartsWithCommand(kind);
    seq(Size(Layout(kind)), i => if i == 0 then CommandId(kind) else 0 as Byte)
  }

  /** A transfer may carry no invoice hash; `pack` then leaves the field out, as it does for a refund. */
  predicate LacksInvoice(m: Message)
    requires Complete(m)
  {
    m.kind == LockedTransfer && m.fields[PaymentHashInvoice] == Absent
  }

  function SetOrder(m: Message): seq<FieldName>
    requires Complete(m)
  {
    if LacksInvoice(m) then PackOrder(RefundTransfer) else PackOrder(m.kind)
  }

  function Encode(m: Message): (r: Result<seq<Byte>, CodecError>)
    requires Complete(m)
    ensures r.Success? ==> |r.value| == Size(Layout(m.kind))
  {
    SetOrderIsInBody(m);
    PackAll(Layout(m.kind), Blank(m.kind), Items(SetOrder(m), m.fields))
  }

  function Decode(data: seq<Byte>): Result<Message, DecodeError> {
    if data == [] then Failure(EmptyData)
    else
      match KindOf(data[0])
      case None => Failure(UnknownCommand)
      case Some(kind) =>
        if |data| < Size(Layout(kind)) then Failure(DataTooShort)
        else
          var fields := Unpack(kind, data);
          if Constructible(kind, fields) then Success(Message(kind, fields)) else Failure(InvalidValues)
  }

  function Unpack(kind: Kind, data: seq<Byte>): map<FieldName, Value>
    requires Size(Layout(kind)) <= |data|
  {
    BodyFieldsAreFound(kind, data);
    UnpackNames(kind, Layout(kind), Body(kind), data)
  }

  function UnpackNames(kind: Kind, layout: seq<FieldSpec<FieldName>>, names: seq<FieldName>, data: seq<Byte>)
    : map<FieldName, Value>
    requires Size(layout) <= |data| && forall name :: name in names ==> GetField(layout, data, name).Success?
  {
    var fields := map name | name in names :: GetField(layout, data, name).value;
    if kind == RefundTransfer then fields[PaymentHashInvoice := Bytes([])] else fields
  }

  // ---------------------------------------------------------------- the tables

  predicate NoRepeats(names: seq<FieldName>) {
    forall i, j :: 0 <= i < j < |names| ==> names[i] != names[j]
  }

  lemma PackOrderIsBody(kind: Kind)
    ensures forall name :: name in PackOrder(kind) <==> name in Body(kind)
  {
    match kind
    case Unlock =>
    case LockedTransfer =>
    case RefundTransfer =>
    case LockExpired =>
    case _ =>
  }

  lemma RefundSetsTransferFields()
    ensures forall name :: name in PackOrder(RefundTransfer) ==> name in Body(LockedTransfer)
    ensures PaymentHashInvoice !in PackOrder(RefundTransfer) && PaymentHashInvoice in Body(LockedTransfer)
  {
  }

  lemma SetOrderIsInBody(m: Message)
    requires Complete(m)
    ensures forall name :: name in SetOrder(m) ==> name in Body(m.kind)
    ensures forall name :: name in Body(m.kind) && name !in SetOrder(m) ==> LacksInvoice(m)
    ensures LacksInvoice(m) ==> PaymentHashInvoice in Body(m.kind) && PaymentHashInvoice !in SetOrder(m)
  {
    PackOrderIsBody(m.kind);
    RefundSetsTransferFields();
  }

  lemma NamesDoNotRepeat(kind: Kind)
    ensures NoRepeats(Body(kind)) && NoRepeats(PackOrder(kind))
  {
    match kind
    case Unlock => UnlockNames();
    case LockedTransfer => LockedTransferNames();
    case RefundTransfer => RefundTransferNames();
    case LockExpired => LockExpiredNames();
    case _ =>
  }

  lemma CommandIsNoBodyField(kind: Kind)
    ensures Cmdid !in Body(kind)
  {
  }

  lemma JoinedNames(first: seq<FieldName>, second: seq<FieldName>)
    requires NoRepeats(first) && NoRepeats(second) && forall name :: name in first ==> name !in second
    ensures NoRepeats(first + second)
  {
    var names := first + second;
    forall i, j | 0 <= i < j < |names| ensures names[i] != names[j] {
      if i < |first| && |first| <= j {
        assert names[i] in first && names[j] in second;
      }
    }
  }

  lemma UnlockNames()
    ensures NoRepeats(Body(Unlock)) && NoRepeats(PackOrder(Unlock))
  {
    UnlockBody();
    UnlockOrder();
  }

  lemma UnlockBody()
    ensures NoRepeats(Body(Unlock))
  {
    var names := Body(Unlock);
    JoinedNames(names[..6], names[6..]);
    assert names == names[..6] + names[6..];
  }

  lemma UnlockOrder()
    ensures NoRepeats(PackOrder(Unlock))
  {
    var names := PackOrder(Unlock);
    JoinedNames(names[..6], names[6..]);
    assert names == names[..6] + names[6..];
  }

  lemma LockExpiredNames()
    ensures NoRepeats(Body(LockExpired)) && NoRepeats(PackOrder(LockExpired))
  {
    LockExpiredBody();
    LockExpiredOrder();
  }

  lemma LockExpiredBody()
    ensures NoRepeats(Body(LockExpired))
  {
    var names := Body(LockExpired);
    JoinedNames(names[..6], names[6..]);
    assert names == names[..6] + names[6..];
  }

  lemma LockExpiredOrder()
    ensures NoRepeats(PackOrder(LockExpired))
  {
    var names := PackOrder(LockExpired);
    JoinedNames(names[..6], names[6..]);
    assert names == names[..6] + names[6..];
  }

  /** Where a field stands in a transfer. */
  function TransferBodyIndex(name: FieldName): nat {
    match name
    case Nonce => 0
    case ChainId => 1
    case MessageIdentifier => 2
    case PaymentIdentifier => 3
    case PaymentHashInvoice => 4
    case Expiration => 5
    case TokenNetworkAddress => 6
    case Token => 7
    case ChannelIdentifier => 8
    case Recipient => 9
    case Target => 10
    case Initiator => 11
    case Locksroot => 12
    case SecretHash => 13
    case TransferredAmount => 14
    case LockedAmount => 15
    case Amount => 16
    case Fee => 17
    case _ => 18
  }

  /** When a field of a transfer is set. */
  function TransferPackIndex(name: FieldName): nat {
    match name
    case ChainId => 0
    case MessageIdentifier => 1
    case PaymentIdentifier => 2
    case PaymentHashInvoice => 3
    case Nonce => 4
    case TokenNetworkAddress => 5
    case Token => 6
    case ChannelIdentifier => 7
    case TransferredAmount => 8
    case LockedAmount => 9
    case Recipient => 10
    case Locksroot => 11
    case Target => 12
    case Initiator => 13
    case Fee => 14
    case Amount => 15
    case Expiration => 16
    case SecretHash => 17
    case _ => 18
  }

  lemma LockedTransferNames()
    ensures NoRepeats(Body(LockedTransfer)) && NoRepeats(PackOrder(LockedTransfer))
  {
    LockedTransferBody();
    LockedTransferOrder();
  }

  lemma LockedTransferBody()
    ensures NoRepeats(Body(LockedTransfer))
  {
    LockedTransferBodyFront();
    LockedTransferBodyBack();
    var names := Body(LockedTransfer);
    forall i, j | 0 <= i < j < |names| ensures names[i] != names[j] {
      assert TransferBodyIndex(names[i]) == i && TransferBodyIndex(names[j]) == j;
    }
  }

  lemma LockedTransferBodyFront()
    ensures forall i :: 0 <= i < 10 ==> TransferBodyIndex(Body(LockedTransfer)[i]) == i
  {
  }

  lemma LockedTransferBodyBack()
    ensures forall i :: 10 <= i < |Body(LockedTransfer)| ==> TransferBodyIndex(Body(LockedTransfer)[i]) == i
  {
  }

  lemma LockedTransferOrder()
    ensures NoRepeats(PackOrder(LockedTransfer))
  {
    LockedTransferOrderFront();
    LockedTransferOrderBack();
    var names := PackOrder(LockedTransfer);
    forall i, j | 0 <= i < j < |names| ensures names[i] != names[j] {
      assert TransferPackIndex(names[i]) == i && TransferPackIndex(names[j]) == j;
    }
  }

  lemma LockedTransferOrderFront()
    ensures forall i :: 0 <= i < 10 ==> TransferPackIndex(PackOrder(LockedTransfer)[i]) == i
  {
  }

  lemma LockedTransferOrderBack()
    ensures forall i :: 10 <= i < |PackOrder(LockedTransfer)| ==> TransferPackIndex(PackOrder(LockedTransfer)[i]) == i
  {
  }

  lemma LeavingOneOut(names: seq<FieldName>, k: nat)
    requires NoRepeats(names) && k < |names|
    ensures NoRepeats(names[..k] + names[k + 1..])
  {
  }

  /** A refund is a transfer without the invoice hash. */
  lemma RefundTransferNames()
    ensures NoRepeats(Body(RefundTransfer)) && NoRepeats(PackOrder(RefundTransfer))
  {
    LockedTransferNames();
    RefundBody();
    RefundOrder();
  }

  lemma RefundBody()
    requires NoRepeats(Body(LockedTransfer))
    ensures NoRepeats(Body(RefundTransfer))
  {
    LeavingOneOut(Body(LockedTransfer), 4);
    assert Body(RefundTransfer) == Body(LockedTransfer)[..4] + Body(LockedTransfer)[5..];
  }

  lemma RefundOrder()
    requires NoRepeats(PackOrder(LockedTransfer))
    ensures NoRepeats(PackOrder(RefundTransfer))
  {
    LeavingOneOut(PackOrder(LockedTransfer), 3);
    assert PackOrder(RefundTransfer) == PackOrder(LockedTransfer)[..3] + PackOrder(LockedTransfer)[4..];
  }

  // ---------------------------------------------------------------- layouts

  lemma {:induction false} LayoutOf(kind: Kind, names: seq<FieldName>)
    ensures Names(Header(kind) + FieldsOf(names)) == {Cmdid} + set name | name in names
    ensures Size(Header(kind) + FieldsOf(names)) >= 4
    ensures Locate(Header(kind) + FieldsOf(names), Cmdid).Some?
  {
    var spec := Header(kind) + FieldsOf(names);
    if names == [] {
      assert spec == Header(kind) && Front(spec) == [Header(kind)[0]] && Front(Front(spec)) == [];
      assert Names(Front(spec)) == {Cmdid};
    } else {
      assert Front(spec) == Header(kind) + FieldsOf(Front(names)) && Last(spec) == FieldOf(Last(names));
      LayoutOf(kind, Front(names));
      assert names == Front(names) + [Last(names)];
    }
  }

  lemma {:induction false} CommandComesFirst(kind: Kind, names: seq<FieldName>)
    requires Cmdid !in names
    ensures Locate(Header(kind) + FieldsOf(names), Cmdid) == Some(Place(Header(kind)[0], 0))
  {
    var spec := Header(kind) + FieldsOf(names);
    if names == [] {
      assert spec == Header(kind) && Front(spec) == [Header(kind)[0]] && Front(Front(spec)) == [];
    } else {
      assert Front(spec) == Header(kind) + FieldsOf(Front(names)) && Last(spec) == FieldOf(Last(names));
      CommandComesFirst(kind, Front(names));
      assert Last(names) in names;
    }
  }

  lemma {:induction false} FieldsAreTheirDefinitions(kind: Kind, names: seq<FieldName>, name: FieldName)
    requires name in names && name != Cmdid
    ensures var place := Locate(Header(kind) + FieldsOf(names), name);
      place.Some? && place.value.field == FieldOf(name)
  {
    var spec := Header(kind) + FieldsOf(names);
    assert Front(spec) == Header(kind) + FieldsOf(Front(names)) && Last(spec) == FieldOf(Last(names));
    if Last(names) != name {
      assert names == Front(names) + [Last(names)];
      FieldsAreTheirDefinitions(kind, Front(names), name);
    }
  }

  lemma LayoutStartsWithCommand(kind: Kind)
    ensures Size(Layout(kind)) >= 4
  {
    LayoutOf(kind, Body(kind));
  }

  lemma FieldsAreFound(kind: Kind, names: seq<FieldName>, data: seq<Byte>)
    requires Cmdid !in names && Size(Header(kind) + FieldsOf(names)) <= |data|
    ensures forall name :: name in names ==> GetField(Header(kind) + FieldsOf(names), data, name).Success?
  {
    forall name | name in names ensures GetField(Header(kind) + FieldsOf(names), data, name).Success? {
      FieldsAreTheirDefinitions(kind, names, name);
    }
  }

  lemma BodyFieldsAreFound(kind: Kind, data: seq<Byte>)
    requires Size(Layout(kind)) <= |data|
    ensures forall name :: name in Body(kind) ==> GetField(Layout(kind), data, name).Success?
  {
    CommandIsNoBodyField(kind);
    FieldsAreFound(kind, Body(kind), data);
  }

  // ---------------------------------------------------------------- round trips

  lemma {:induction false} ItemsAreDistinct(names: seq<FieldName>, fields: map<FieldName, Value>)
    requires NoRepeats(names) && forall name :: name in names ==> name in fields
    ensures DistinctItems(Items(names, fields))
  {
    if names != [] {
      assert forall i :: 0 <= i < |names[1..]| ==> names[1..][i] == names[i + 1];
      ItemsAreDistinct(names[1..], fields);
      assert Items(names, fields)[1..] == Items(names[1..], fields);
    }
  }

  /** `data` is what setting these fields in this order, on a blank buffer of this layout, leaves. */
  ghost predicate Packs(kind: Kind, names: seq<FieldName>, order: seq<FieldName>, fields: map<FieldName, Value>,
                        blank: seq<Byte>, data: seq<Byte>)
  {
    var layout := Header(kind) + FieldsOf(names);
    && NoRepeats(order) && (forall name :: name in order ==> name in names) && Cmdid !in names
    && (forall name :: name in order ==> name in fields)
    && |blank| == Size(layout) && blank != [] && blank[0] == CommandId(kind)
    && PackAll(layout, blank, Items(order, fields)) == Success(data)
  }

  lemma EncodePacks(m: Message)
    requires Complete(m) && Encode(m).Success?
    ensures Packs(m.kind, Body(m.kind), SetOrder(m), m.fields, Blank(m.kind), Encode(m).value)
  {
    SetOrderIsInBody(m);
    NamesDoNotRepeat(m.kind);
    NamesDoNotRepeat(RefundTransfer);
    CommandIsNoBodyField(m.kind);
  }

  /** Every packed field reads back as its padded value. */
  lemma PackedFieldReadsBack(kind: Kind, names: seq<FieldName>, order: seq<FieldName>,
                             fields: map<FieldName, Value>, blank: seq<Byte>, data: seq<Byte>, name: FieldName)
    requires Packs(kind, names, order, fields, blank, data) && name in order
    ensures EncodeValue(FieldOf(name), fields[name]).Success?
    ensures GetField(Header(kind) + FieldsOf(names), data, name) == Success(Padded(FieldOf(name), fields[name]))
  {
    var items := Items(order, fields);
    ItemsAreDistinct(order, fields);
    PackedFieldsReadBack(Header(kind) + FieldsOf(names), blank, items, name);
    FieldsAreTheirDefinitions(kind, names, name);
    var i :| 0 <= i < |order| && order[i] == name;
    assert items[i] == (name, fields[name]);
  }

  lemma PackedCommandIsKept(kind: Kind, names: seq<FieldName>, order: seq<FieldName>,
                            fields: map<FieldName, Value>, blank: seq<Byte>, data: seq<Byte>)
    requires Packs(kind, names, order, fields, blank, data)
    ensures data != [] && data[0] == CommandId(kind)
  {
    var layout, items := Header(kind) + FieldsOf(names), Items(order, fields);
    ItemsAreDistinct(order, fields);
    PackedFieldsReadBack(layout, blank, items, Cmdid);
    assert forall i :: 0 <= i < |items| ==> items[i].0 == order[i];
    CommandComesFirst(kind, names);
    assert GetField(layout, data, Cmdid) == GetField(layout, blank, Cmdid);
    assert data[0..1] == [data[0]] && blank[0..1] == [blank[0]];
    OneByte(data[0]);
    OneByte(blank[0]);
  }

  /** Every attribute that is packed, of a message of any kind, reads back from its encoding. */
  lemma EncodedFieldsReadBack(m: Message, name: FieldName)
    requires Complete(m) && Encode(m).Success? && name in SetOrder(m)
    ensures name in m.fields
    ensures GetField(Layout(m.kind), Encode(m).value, name) == Success(Padded(FieldOf(name), m.fields[name]))
  {
    EncodePacks(m);
    SetOrderIsInBody(m);
    PackedFieldReadsBack(m.kind, Body(m.kind), SetOrder(m), m.fields, Blank(m.kind), Encode(m).value, name);
  }

  /** Packing never touches the command identifier. */
  lemma CommandIsKept(m: Message)
    requires Complete(m) && Encode(m).Success?
    ensures var data := Encode(m).value; data != [] && data[0] == CommandId(m.kind)
  {
    EncodePacks(m);
    PackedCommandIsKept(m.kind, Body(m.kind), SetOrder(m), m.fields, Blank(m.kind), Encode(m).value);
  }

  lemma OneByte(b: Byte)
    ensures FromBytes([b]) == b
  {
    assert [b][..0] == [];
  }

  predicate FillsField(name: FieldName, value: Value) {
    value != Absent && (value.Bytes? ==> |value.bytes| == FieldOf(name).size)
  }

  predicate FillsFields(names: seq<FieldName>, fields: map<FieldName, Value>)
    requires forall name :: name in names ==> name in fields
  {
    forall name :: name in names ==> FillsField(name, fields[name])
  }

  /** Every byte string attribute is there and fills its field, and a refund has the empty invoice hash. */
  predicate FullWidth(m: Message)
    requires Complete(m)
  {
    && FillsFields(Body(m.kind), m.fields)
    && (m.kind == RefundTransfer ==> m.fields[PaymentHashInvoice] == Bytes([]))
  }

  lemma UnpackedFieldIsSameIff(kind: Kind, names: seq<FieldName>, order: seq<FieldName>,
                               fields: map<FieldName, Value>, blank: seq<Byte>, data: seq<Byte>, name: FieldName)
    requires Packs(kind, names, order, fields, blank, data) && name in order
    ensures GetField(Header(kind) + FieldsOf(names), data, name).Success?
    ensures GetField(Header(kind) + FieldsOf(names), data, name).value == fields[name] <==> FillsField(name, fields[name])
  {
    PackedFieldReadsBack(kind, names, order, fields, blank, data, name);
    PaddedIsValueIffFullWidth(FieldOf(name), fields[name]);
  }

  /** The fields read one by one, with the invoice hash that a refund gets when it is unpacked. */
  lemma UnpackedIsSameIff(kind: Kind, layout: seq<FieldSpec<FieldName>>, names: seq<FieldName>,
                          fields: map<FieldName, Value>, data: seq<Byte>)
    requires Size(layout) <= |data| && forall name :: name in names ==> GetField(layout, data, name).Success?
    requires kind == RefundTransfer ==> PaymentHashInvoice !in names
    requires fields.Keys == (set name | name in names) + if kind == RefundTransfer then {PaymentHashInvoice} else {}
    ensures UnpackNames(kind, layout, names, data) == fields
       <==> && (forall name :: name in names ==> GetField(layout, data, name).value == fields[name])
            && (kind == RefundTransfer ==> fields[PaymentHashInvoice] == Bytes([]))
  {
    var unpacked := UnpackNames(kind, layout, names, data);
    assert unpacked.Keys == fields.Keys;
    assert forall name :: name in names ==> unpacked[name] == GetField(layout, data, name).value;
  }

  lemma UnpackedIsSameIffFullWidth(kind: Kind, names: seq<FieldName>, order: seq<FieldName>,
                                   fields: map<FieldName, Value>, blank: seq<Byte>, data: seq<Byte>)
    requires Packs(kind, names, order, fields, blank, data) && forall name :: name in names ==> name in order
    requires kind == RefundTransfer ==> PaymentHashInvoice !in names
    requires fields.Keys == (set name | name in names) + if kind == RefundTransfer then {PaymentHashInvoice} else {}
    ensures forall name :: name in names ==> GetField(Header(kind) + FieldsOf(names), data, name).Success?
    ensures UnpackNames(kind, Header(kind) + FieldsOf(names), names, data) == fields
       <==> FillsFields(names, fields) && (kind == RefundTransfer ==> fields[PaymentHashInvoice] == Bytes([]))
  {
    var layout := Header(kind) + FieldsOf(names);
    forall name | name in names
      ensures GetField(layout, data, name).Success?
      ensures GetField(layout, data, name).value == fields[name] <==> FillsField(name, fields[name])
    {
      UnpackedFieldIsSameIff(kind, names, order, fields, blank, data, name);
    }
    UnpackedIsSameIff(kind, layout, names, fields, data);
  }

  lemma RefundHasNoInvoice()
    ensures PaymentHashInvoice !in Body(RefundTransfer)
  {
  }

  /** An invoice hash that is not there comes back as thirty-two zero bytes. */
  lemma AbsentInvoiceReadsAsZeros(m: Message)
    requires Complete(m) && LacksInvoice(m) && Encode(m).Success?
    ensures GetField(Layout(m.kind), Encode(m).value, PaymentHashInvoice) == Success(Bytes(Zeros(32)))
  {
    EncodePacks(m);
    SetOrderIsInBody(m);
    UnsetFieldIsZero(m.kind, Body(m.kind), SetOrder(m), m.fields, Blank(m.kind), Encode(m).value, PaymentHashInvoice);
  }

  lemma UnsetFieldIsZero(kind: Kind, names: seq<FieldName>, order: seq<FieldName>, fields: map<FieldName, Value>,
                         blank: seq<Byte>, data: seq<Byte>, name: FieldName)
    requires Packs(kind, names, order, fields, blank, data) && name in names && name !in order
    requires FieldOf(name).encoder == None && forall i :: 0 < i < |blank| ==> blank[i] == 0
    ensures GetField(Header(kind) + FieldsOf(names), data, name) == Success(Bytes(Zeros(FieldOf(name).size)))
  {
    var items := Items(order, fields);
    ItemsAreDistinct(order, fields);
    assert forall i :: 0 <= i < |items| ==> items[i].0 == order[i];
    PackedFieldsReadBack(Header(kind) + FieldsOf(names), blank, items, name);
    BlankFieldIsZero(kind, names, blank, name);
  }

  lemma BlankFieldIsZero(kind: Kind, names: seq<FieldName>, blank: seq<Byte>, name: FieldName)
    requires Cmdid !in names && name in names && |blank| == Size(Header(kind) + FieldsOf(names))
    requires FieldOf(name).encoder == None && forall i :: 0 < i < |blank| ==> blank[i] == 0
    ensures GetField(Header(kind) + FieldsOf(names), blank, name) == Success(Bytes(Zeros(FieldOf(name).size)))
  {
    var layout := Header(kind) + FieldsOf(names);
    FieldsAreTheirDefinitions(kind, names, name);
    CommandComesFirst(kind, names);
    SlicesAreDisjoint(layout, Cmdid, name);
    LocatedInside(layout, name);
    var start := Locate(layout, name).value.start;
    assert blank[start..start + FieldOf(name).size] == Zeros(FieldOf(name).size);
  }

  /** Decoding reads numbers and byte strings, never a missing value. */
  lemma DecodedIsNeverAbsent(kind: Kind, layout: seq<FieldSpec<FieldName>>, names: seq<FieldName>, data: seq<Byte>,
                             name: FieldName)
    requires Size(layout) <= |data| && forall n :: n in names ==> GetField(layout, data, n).Success?
    requires name in names
    ensures name in UnpackNames(kind, layout, names, data) && UnpackNames(kind, layout, names, data)[name] != Absent
  {
    assert GetField(layout, data, name).value != Absent;
  }

  lemma AbsentInvoiceIsLost(m: Message)
    requires Complete(m) && LacksInvoice(m) && Encode(m).Success?
    ensures Decode(Encode(m).value) != Success(m) && !FullWidth(m)
  {
    SetOrderIsInBody(m);
    BodyFieldsAreFound(m.kind, Encode(m).value);
    DecodedIsNeverAbsent(m.kind, Layout(m.kind), Body(m.kind), Encode(m).value, PaymentHashInvoice);
    CommandIsKept(m);
    CommandIdentifiesKind(m.kind);
    DecodeUnpacks(m.kind, Encode(m).value);
  }

  /** Decoding an encoded message gives it back, class and all, exactly when it is full width. */
  lemma RoundTripIff(m: Message)
    requires Complete(m) && Constructible(m.kind, m.fields) && Encode(m).Success?
    ensures Decode(Encode(m).value) == Success(m) <==> FullWidth(m)
  {
    if LacksInvoice(m) {
      AbsentInvoiceIsLost(m);
    } else {
      RefundHasNoInvoice();
      EncodePacks(m);
      SetOrderIsInBody(m);
      UnpackedIsSameIffFullWidth(m.kind, Body(m.kind), SetOrder(m), m.fields, Blank(m.kind), Encode(m).value);
      CommandIsKept(m);
      CommandIdentifiesKind(m.kind);
      DecodeUnpacks(m.kind, Encode(m).value);
    }
  }

  lemma CommandIdentifiesKind(kind: Kind)
    ensures KindOf(CommandId(kind)) == Some(kind)
  {
  }

  lemma DecodeUnpacks(kind: Kind, data: seq<Byte>)
    requires data != [] && KindOf(data[0]) == Some(kind) && Size(Layout(kind)) <= |data|
    ensures var fields := Unpack(kind, data);
      Decode(data) == if Constructible(kind, fields) then Success(Message(kind, fields)) else Failure(InvalidValues)
  {
  }

  // ---------------------------------------------------------------- locks

  const LOCK_LAYOUT: seq<FieldSpec<FieldName>> := [FieldOf(Expiration), FieldOf(Amount), FieldOf(SecretHash)]

  function LockItems(l: Locks.HashTimeLock): seq<(FieldName, Value)> {
    [(Amount, Num(l.amount)), (Expiration, Num(l.expiration)), (SecretHash, Bytes(l.secrethash))]
  }

  lemma LockPlaces()
    ensures Size(LOCK_LAYOUT) == Locks.LOCK_SIZE
    ensures Locate(LOCK_LAYOUT, Expiration) == Some(Place(FieldOf(Expiration), 0))
    ensures Locate(LOCK_LAYOUT, Amount) == Some(Place(FieldOf(Amount), 32))
    ensures Locate(LOCK_LAYOUT, SecretHash) == Some(Place(FieldOf(SecretHash), 64))
  {
    var one, two := [FieldOf(Expiration)], [FieldOf(Expiration), FieldOf(Amount)];
    assert Front(LOCK_LAYOUT) == two && Front(two) == one && Front(one) == [];
  }

  /** Setting a field whose place and bytes are known. */
  lemma SetAt<N>(spec: seq<FieldSpec<N>>, data: seq<Byte>, name: N, value: Value, place: Place<N>, bytes: seq<Byte>)
    requires Size(spec) <= |data| && Locate(spec, name) == Some(place) && place.field.Field?
    requires EncodeValue(place.field, value) == Success(bytes) && place.start + |bytes| <= |data|
    ensures SetField(spec, data, name, value) == Success(data[..place.start] + bytes + data[place.start + |bytes|..])
  {
    LocatedInside(spec, name);
  }

  /** Three fields side by side, set in the order second, first, third. */
  lemma {:induction false} PackSideBySide<N>(spec: seq<FieldSpec<N>>, blank: seq<Byte>, p: Place<N>, q: Place<N>, r: Place<N>,
                                             x: Value, y: Value, z: Value, a: seq<Byte>, b: seq<Byte>, c: seq<Byte>)
    requires Size(spec) <= |blank| == |a| + |b| + |c|
    requires p.field.Field? && q.field.Field? && r.field.Field?
    requires Locate(spec, p.field.name) == Some(p) && p.start == 0 && EncodeValue(p.field, x) == Success(a)
    requires Locate(spec, q.field.name) == Some(q) && q.start == |a| && EncodeValue(q.field, y) == Success(b)
    requires Locate(spec, r.field.name) == Some(r) && r.start == |a| + |b| && EncodeValue(r.field, z) == Success(c)
    ensures PackAll(spec, blank, [(q.field.name, y), (p.field.name, x), (r.field.name, z)]) == Success(a + b + c)
  {
    var items := [(q.field.name, y), (p.field.name, x), (r.field.name, z)];
    var first := blank[..|a|] + b + blank[|a| + |b|..];
    SetAt(spec, blank, q.field.name, y, q, b);
    var second := first[..0] + a + first[|a|..];
    SetAt(spec, first, p.field.name, x, p, a);
    var third := second[..|a| + |b|] + c + second[|a| + |b| + |c|..];
    SetAt(spec, second, r.field.name, z, r, c);
    assert third == a + b + c;
    PackThree(spec, blank, first, second, third, items);
  }

  /** A field for numbers of `width` bytes that accepts all of them. */
  predicate IsWord<N>(field: FieldSpec<N>, width: nat) {
    field.Field? && field.size == width && field.encoder == Some(Range(0, Pow256(width) - 1))
  }

  lemma WordBytes<N>(field: FieldSpec<N>, value: nat, width: nat)
    requires IsWord(field, width) && value < Pow256(width)
    ensures EncodeValue(field, Num(value)) == Success(ToBytes(value, width))
  {
  }

  /** Two numbers and a byte string side by side, set in the order second, first, third. */
  lemma PackWords<N>(spec: seq<FieldSpec<N>>, blank: seq<Byte>, p: Place<N>, q: Place<N>, r: Place<N>, x: nat, y: nat,
                     c: seq<Byte>, width: nat)
    requires Size(spec) <= |blank| == width + width + |c|
    requires IsWord(p.field, width) && IsWord(q.field, width) && x < Pow256(width) && y < Pow256(width)
    requires r.field.Field? && r.field.encoder == None && r.field.size == |c|
    requires Locate(spec, p.field.name) == Some(p) && p.start == 0
    requires Locate(spec, q.field.name) == Some(q) && q.start == width
    requires Locate(spec, r.field.name) == Some(r) && r.start == width + width
    ensures PackAll(spec, blank, [(q.field.name, Num(y)), (p.field.name, Num(x)), (r.field.name, Bytes(c))])
         == Success(ToBytes(x, width) + ToBytes(y, width) + c)
  {
    WordBytes(p.field, x, width);
    WordBytes(q.field, y, width);
    assert Zeros(0) + c == c;
    PackSideBySide(spec, blank, p, q, r, Num(x), Num(y), Bytes(c), ToBytes(x, width), ToBytes(y, width), c);
  }

  /** Writing a lock's fields into a 96-byte buffer, in the source's order, gives the lock's encoding. */
  lemma PackedLockIsItsEncoding(l: Locks.HashTimeLock)
    ensures Size(LOCK_LAYOUT) == Locks.LOCK_SIZE
    ensures PackAll(LOCK_LAYOUT, Zeros(Locks.LOCK_SIZE), LockItems(l)) == Success(Locks.EncodeLock(l))
  {
    LockPlaces();
    WidthOfUint256();
    PackWords(LOCK_LAYOUT, Zeros(Locks.LOCK_SIZE), Place(FieldOf(Expiration), 0), Place(FieldOf(Amount), 32),
              Place(FieldOf(SecretHash), 64), l.expiration, l.amount, l.secrethash, 32);
  }

  lemma {:induction false} PackThree<N>(spec: seq<FieldSpec<N>>, blank: seq<Byte>, first: seq<Byte>, second: seq<Byte>,
                                        third: seq<Byte>, items: seq<(N, Value)>)
    requires Size(spec) <= |blank| == |first| == |second| == |third| && |items| == 3
    requires SetField(spec, blank, items[0].0, items[0].1) == Success(first)
    requires SetField(spec, first, items[1].0, items[1].1) == Success(second)
    requires SetField(spec, second, items[2].0, items[2].1) == Success(third)
    ensures PackAll(spec, blank, items) == Success(third)
  {
    var later, last := items[1..], items[1..][1..];
    assert later[0] == items[1] && last[0] == items[2] && last[1..] == [];
    assert PackAll(spec, second, last) == PackAll(spec, third, []);
    assert PackAll(spec, first, later) == PackAll(spec, second, last);
  }
}
