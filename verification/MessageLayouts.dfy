/**
  The binary format in plain numbers (raiden/encoding/messages.py): how wide each field is, where it
  starts in each kind of message, how long each message is, what can be encoded and what decodes.
 */
module MessageLayouts {
  import opened Wrappers
  import opened BigEndian
  import opened NamedBuffer
  import opened Messages

  /** The width of a field in bytes. */
  function Width(name: FieldName): nat {
    match name
    case Cmdid | CurrentProtocolVersion => 1
    case Nonce | PaymentIdentifier | MessageIdentifier | DeliveredMessageIdentifier => 8
    case TokenNetworkAddress | Token | Recipient | Target | Initiator => 20
    case Signature => 65
    case _ => 32
  }

  predicate HoldsNumber(name: FieldName) {
    match name
    case Cmdid | CurrentProtocolVersion | Nonce | PaymentIdentifier | MessageIdentifier | DeliveredMessageIdentifier => true
    case ChainId | Expiration | ChannelIdentifier | TransferredAmount | LockedAmount | Amount | Fee => true
    case _ => false
  }

  /** What a field can carry: a number of its width, or at most as many bytes. */
  predicate Carries(name: FieldName, value: Value) {
    if HoldsNumber(name) then value.Num? && 0 <= value.n < Pow256(Width(name))
    else value.Bytes? && |value.bytes| <= Width(name)
  }

  /** The definition of a field, against its width; a number field accepts every number of its width. */
  lemma FieldShape(name: FieldName)
    requires name != Cmdid
    ensures FieldOf(name).Field? && FieldOf(name).name == name && FieldOf(name).size == Width(name)
    ensures FieldOf(name).encoder.Some? <==> HoldsNumber(name)
  {
  }

  lemma NumberRange(name: FieldName)
    requires name != Cmdid && HoldsNumber(name)
    ensures FieldOf(name).Field? && FieldOf(name).encoder.Some?
    ensures var range := FieldOf(name).encoder.value; range.minimum == 0 && Pow256(Width(name)) - 1 <= range.maximum
  {
    WidthOfUint256();
  }

  lemma EncodesIff<N>(field: FieldSpec<N>, value: Value, width: nat)
    requires field.Field? && field.size == width
    requires field.encoder.Some? ==> field.encoder.value.minimum == 0 && Pow256(width) - 1 <= field.encoder.value.maximum
    ensures EncodeValue(field, value).Success? <==>
            if field.encoder.Some? then value.Num? && 0 <= value.n < Pow256(width)
            else value.Bytes? && |value.bytes| <= width
  {
  }

  lemma FieldCarries(name: FieldName, value: Value)
    requires name != Cmdid
    ensures FieldOf(name).Field? && (EncodeValue(FieldOf(name), value).Success? <==> Carries(name, value))
  {
    FieldShape(name);
    if HoldsNumber(name) {
      NumberRange(name);
    }
    EncodesIff(FieldOf(name), value, Width(name));
  }

  // ---------------------------------------------------------------- where the fields are

  function ProcessedOffset(name: FieldName): nat {
    match name
    case MessageIdentifier => 4
    case Signature => 12
    case _ => 0
  }

  function PingOffset(name: FieldName): nat {
    match name
    case Nonce => 4
    case CurrentProtocolVersion => 12
    case Signature => 13
    case _ => 0
  }

  function PongOffset(name: FieldName): nat {
    match name
    case Nonce => 4
    case Signature => 12
    case _ => 0
  }

  function SecretRequestOffset(name: FieldName): nat {
    match name
    case MessageIdentifier => 4
    case PaymentIdentifier => 12
    case SecretHash => 20
    case Amount => 52
    case Expiration => 84
    case Signature => 116
    case _ => 0
  }

  function UnlockOffset(name: FieldName): nat {
    match name
    case ChainId => 4
    case MessageIdentifier => 36
    case PaymentIdentifier => 44
    case TokenNetworkAddress => 52
    case Secret => 72
    case Nonce => 104
    case ChannelIdentifier => 112
    case TransferredAmount => 144
    case LockedAmount => 176
    case Locksroot => 208
    case Signature => 240
    case _ => 0
  }

  function LockedTransferOffset(name: FieldName): nat {
    match name
    case Nonce => 4
    case ChainId => 12
    case MessageIdentifier => 44
    case PaymentIdentifier => 52
    case PaymentHashInvoice => 60
    case Expiration => 92
    case TokenNetworkAddress => 124
    case Token => 144
    case ChannelIdentifier => 164
    case Recipient => 196
    case Target => 216
    case Initiator => 236
    case Locksroot => 256
    case SecretHash => 288
    case TransferredAmount => 320
    case LockedAmount => 352
    case Amount => 384
    case Fee => 416
    case Signature => 448
    case _ => 0
  }

  function RefundTransferOffset(name: FieldName): nat {
    match name
    case Nonce => 4
    case ChainId => 12
    case MessageIdentifier => 44
    case PaymentIdentifier => 52
    case Expiration => 60
    case TokenNetworkAddress => 92
    case Token => 112
    case ChannelIdentifier => 132
    case Recipient => 164
    case Target => 184
    case Initiator => 204
    case Locksroot => 224
    case SecretHash => 256
    case TransferredAmount => 288
    case LockedAmount => 320
    case Amount => 352
    case Fee => 384
    case Signature => 416
    case _ => 0
  }

  function RevealSecretOffset(name: FieldName): nat {
    match name
    case MessageIdentifier => 4
    case Secret => 12
    case Signature => 44
    case _ => 0
  }

  function DeliveredOffset(name: FieldName): nat {
    match name
    case DeliveredMessageIdentifier => 4
    case Signature => 12
    case _ => 0
  }

  function LockExpiredOffset(name: FieldName): nat {
    match name
    case Nonce => 4
    case ChainId => 12
    case MessageIdentifier => 44
    case TokenNetworkAddress => 52
    case ChannelIdentifier => 72
    case Recipient => 104
    case Locksroot => 124
    case SecretHash => 156
    case TransferredAmount => 188
    case LockedAmount => 220
    case Signature => 252
    case _ => 0
  }

  function ToDeviceOffset(name: FieldName): nat {
    match name
    case MessageIdentifier => 4
    case Signature => 12
    case _ => 0
  }

  /** Where a field starts in a message of this kind, after the command byte and three bytes of padding. */
  function Offset(kind: Kind, name: FieldName): nat {
    match kind
    case Processed => ProcessedOffset(name)
    case Ping => PingOffset(name)
    case Pong => PongOffset(name)
    case SecretRequest => SecretRequestOffset(name)
    case Unlock => UnlockOffset(name)
    case LockedTransfer => LockedTransferOffset(name)
    case RefundTransfer => RefundTransferOffset(name)
    case RevealSecret => RevealSecretOffset(name)
    case Delivered => DeliveredOffset(name)
    case LockExpired => LockExpiredOffset(name)
    case ToDevice => ToDeviceOffset(name)
  }

  function TotalSize(kind: Kind): nat {
    match kind
    case Processed => 77
    case Ping => 78
    case Pong => 77
    case SecretRequest => 181
    case Unlock => 305
    case LockedTransfer => 513
    case RefundTransfer => 481
    case RevealSecret => 109
    case Delivered => 77
    case LockExpired => 317
    case ToDevice => 77
  }

  /** The first field starts at byte four, and each field starts where the one before it ends. */
  predicate FieldsFollow(kind: Kind, names: seq<FieldName>) {
    && names != [] && Offset(kind, names[0]) == 4
    && forall i :: 0 <= i < |names| - 1 ==> Offset(kind, names[i + 1]) == Offset(kind, names[i]) + Width(names[i])
  }

  lemma ProcessedFieldsFollow()
    ensures FieldsFollow(Processed, Body(Processed)) && Offset(Processed, Last(Body(Processed))) + Width(Last(Body(Processed))) == TotalSize(Processed)
  {
    var names := Body(Processed);
    forall i | 0 <= i < |names| - 1 ensures Offset(Processed, names[i + 1]) == Offset(Processed, names[i]) + Width(names[i]) {
    }
  }

  lemma PingFieldsFollow()
    ensures FieldsFollow(Ping, Body(Ping)) && Offset(Ping, Last(Body(Ping))) + Width(Last(Body(Ping))) == TotalSize(Ping)
  {
    var names := Body(Ping);
    forall i | 0 <= i < |names| - 1 ensures Offset(Ping, names[i + 1]) == Offset(Ping, names[i]) + Width(names[i]) {
    }
  }

  lemma PongFieldsFollow()
    ensures FieldsFollow(Pong, Body(Pong)) && Offset(Pong, Last(Body(Pong))) + Width(Last(Body(Pong))) == TotalSize(Pong)
  {
    var names := Body(Pong);
    forall i | 0 <= i < |names| - 1 ensures Offset(Pong, names[i + 1]) == Offset(Pong, names[i]) + Width(names[i]) {
    }
  }

  lemma SecretRequestFieldsFollow()
    ensures FieldsFollow(SecretRequest, Body(SecretRequest)) && Offset(SecretRequest, Last(Body(SecretRequest))) + Width(Last(Body(SecretRequest))) == TotalSize(SecretRequest)
  {
    var names := Body(SecretRequest);
    forall i | 0 <= i < |names| - 1 ensures Offset(SecretRequest, names[i + 1]) == Offset(SecretRequest, names[i]) + Width(names[i]) {
    }
  }

  lemma UnlockFieldsFollow()
    ensures FieldsFollow(Unlock, Body(Unlock)) && Offset(Unlock, Last(Body(Unlock))) + Width(Last(Body(Unlock))) == TotalSize(Unlock)
  {
    var names := Body(Unlock);
    forall i | 0 <= i < |names| - 1 ensures Offset(Unlock, names[i + 1]) == Offset(Unlock, names[i]) + Width(names[i]) {
    }
  }

  /** The fields of a transfer in order. */
  function TransferField(i: nat): FieldName {
    if i == 0 then Nonce
    else if i == 1 then ChainId
    else if i == 2 then MessageIdentifier
    else if i == 3 then PaymentIdentifier
    else if i == 4 then PaymentHashInvoice
    else if i == 5 then Expiration
    else if i == 6 then TokenNetworkAddress
    else if i == 7 then Token
    else if i == 8 then ChannelIdentifier
    else if i == 9 then Recipient
    else if i == 10 then Target
    else if i == 11 then Initiator
    else if i == 12 then Locksroot
    else if i == 13 then SecretHash
    else if i == 14 then TransferredAmount
    else if i == 15 then LockedAmount
    else if i == 16 then Amount
    else if i == 17 then Fee
    else Signature
  }

  function RefundField(i: nat): FieldName {
    if i < 4 then TransferField(i) else TransferField(i + 1)
  }

  lemma TransferFields()
    ensures |Body(LockedTransfer)| == 19
    ensures forall i :: 0 <= i < 19 ==> Body(LockedTransfer)[i] == TransferField(i)
  {
  }

  lemma RefundFields()
    ensures |Body(RefundTransfer)| == 18
    ensures forall i :: 0 <= i < 18 ==> Body(RefundTransfer)[i] == RefundField(i)
  {
  }

  lemma TransferFieldFollows(i: nat)
    requires i < 18
    ensures LockedTransferOffset(TransferField(i + 1)) == LockedTransferOffset(TransferField(i)) + Width(TransferField(i))
  {
  }

  lemma RefundFieldFollows(i: nat)
    requires i < 17
    ensures RefundTransferOffset(RefundField(i + 1)) == RefundTransferOffset(RefundField(i)) + Width(RefundField(i))
  {
  }

  lemma LockedTransferFieldsFollow()
    ensures FieldsFollow(LockedTransfer, Body(LockedTransfer))
    ensures Offset(LockedTransfer, Last(Body(LockedTransfer))) + Width(Last(Body(LockedTransfer))) == TotalSize(LockedTransfer)
  {
    TransferFields();
    NamedFieldsFollow(LockedTransfer, Body(LockedTransfer), TransferField);
  }

  lemma RefundTransferFieldsFollow()
    ensures FieldsFollow(RefundTransfer, Body(RefundTransfer))
    ensures Offset(RefundTransfer, Last(Body(RefundTransfer))) + Width(Last(Body(RefundTransfer))) == TotalSize(RefundTransfer)
  {
    RefundFields();
    NamedFieldsFollow(RefundTransfer, Body(RefundTransfer), RefundField);
  }

  lemma NamedFieldsFollow(kind: Kind, names: seq<FieldName>, at: nat -> FieldName)
    requires (kind == LockedTransfer && |names| == 19 && at == TransferField)
          || (kind == RefundTransfer && |names| == 18 && at == RefundField)
    requires forall i :: 0 <= i < |names| ==> names[i] == at(i)
    ensures FieldsFollow(kind, names)
    ensures Offset(kind, Last(names)) + Width(Last(names)) == TotalSize(kind)
  {
    forall i | 0 <= i < |names| - 1 ensures Offset(kind, names[i + 1]) == Offset(kind, names[i]) + Width(names[i]) {
      if kind == LockedTransfer {
        TransferFieldFollows(i);
      } else {
        RefundFieldFollows(i);
      }
    }
  }

  lemma RevealSecretFieldsFollow()
    ensures FieldsFollow(RevealSecret, Body(RevealSecret)) && Offset(RevealSecret, Last(Body(RevealSecret))) + Width(Last(Body(RevealSecret))) == TotalSize(RevealSecret)
  {
    var names := Body(RevealSecret);
    forall i | 0 <= i < |names| - 1 ensures Offset(RevealSecret, names[i + 1]) == Offset(RevealSecret, names[i]) + Width(names[i]) {
    }
  }

  lemma DeliveredFieldsFollow()
    ensures FieldsFollow(Delivered, Body(Delivered)) && Offset(Delivered, Last(Body(Delivered))) + Width(Last(Body(Delivered))) == TotalSize(Delivered)
  {
    var names := Body(Delivered);
    forall i | 0 <= i < |names| - 1 ensures Offset(Delivered, names[i + 1]) == Offset(Delivered, names[i]) + Width(names[i]) {
    }
  }

  lemma LockExpiredFieldsFollow()
    ensures FieldsFollow(LockExpired, Body(LockExpired)) && Offset(LockExpired, Last(Body(LockExpired))) + Width(Last(Body(LockExpired))) == TotalSize(LockExpired)
  {
    var names := Body(LockExpired);
    forall i | 0 <= i < |names| - 1 ensures Offset(LockExpired, names[i + 1]) == Offset(LockExpired, names[i]) + Width(names[i]) {
    }
  }

  lemma ToDeviceFieldsFollow()
    ensures FieldsFollow(ToDevice, Body(ToDevice)) && Offset(ToDevice, Last(Body(ToDevice))) + Width(Last(Body(ToDevice))) == TotalSize(ToDevice)
  {
    var names := Body(ToDevice);
    forall i | 0 <= i < |names| - 1 ensures Offset(ToDevice, names[i + 1]) == Offset(ToDevice, names[i]) + Width(names[i]) {
    }
  }

  lemma FieldsFollowEachOther(kind: Kind)
    ensures FieldsFollow(kind, Body(kind)) && Offset(kind, Last(Body(kind))) + Width(Last(Body(kind))) == TotalSize(kind)
  {
    match kind {
      case Processed => ProcessedFieldsFollow();
      case Ping => PingFieldsFollow();
      case Pong => PongFieldsFollow();
      case SecretRequest => SecretRequestFieldsFollow();
      case Unlock => UnlockFieldsFollow();
      case LockedTransfer => LockedTransferFieldsFollow();
      case RefundTransfer => RefundTransferFieldsFollow();
      case RevealSecret => RevealSecretFieldsFollow();
      case Delivered => DeliveredFieldsFollow();
      case LockExpired => LockExpiredFieldsFollow();
      case ToDevice => ToDeviceFieldsFollow();
    }
  }

  lemma FollowFront(kind: Kind, names: seq<FieldName>)
    requires FieldsFollow(kind, names) && |names| > 1
    ensures FieldsFollow(kind, Front(names))
    ensures Offset(kind, Last(names)) == Offset(kind, Last(Front(names))) + Width(Last(Front(names)))
  {
  }

  lemma LayoutFront(kind: Kind, names: seq<FieldName>)
    requires names != []
    ensures var spec := Header(kind) + FieldsOf(names);
      && spec != [] && Front(spec) == Header(kind) + FieldsOf(Front(names)) && Last(spec) == FieldOf(Last(names))
  {
  }

  lemma HeaderSize(kind: Kind)
    ensures Header(kind) + FieldsOf([]) == Header(kind) && Size(Header(kind)) == 4
  {
    assert Front(Header(kind)) == [Header(kind)[0]] && Front([Header(kind)[0]]) == [];
  }

  lemma {:induction false} SizeIsEnd(kind: Kind, names: seq<FieldName>)
    requires FieldsFollow(kind, names) && Cmdid !in names
    ensures Size(Header(kind) + FieldsOf(names)) == Offset(kind, Last(names)) + Width(Last(names))
    decreases |names|
  {
    LayoutFront(kind, names);
    FieldShape(Last(names));
    if |names| > 1 {
      FollowFront(kind, names);
      SizeIsEnd(kind, Front(names));
    } else {
      assert Front(names) == [];
      HeaderSize(kind);
    }
  }

  lemma LocateInLayout(kind: Kind, names: seq<FieldName>, name: FieldName)
    requires names != [] && Last(names) != Cmdid
    ensures var front := Header(kind) + FieldsOf(Front(names));
      Locate(Header(kind) + FieldsOf(names), name)
      == if name == Last(names) then Some(Place(FieldOf(name), Size(front))) else Locate(front, name)
  {
    LayoutFront(kind, names);
    FieldShape(Last(names));
  }

  lemma FirstName(kind: Kind, names: seq<FieldName>)
    requires FieldsFollow(kind, names) && |names| == 1
    ensures Header(kind) + FieldsOf(Front(names)) == Header(kind) && Size(Header(kind)) == Offset(kind, Last(names))
  {
    assert Front(names) == [];
    HeaderSize(kind);
  }

  lemma NotTheLast(names: seq<FieldName>, name: FieldName)
    requires name in names && name != Last(names)
    ensures |names| > 1 && name in Front(names)
  {
    assert names == Front(names) + [Last(names)];
  }

  lemma {:induction false} PlacedAtOffset(kind: Kind, names: seq<FieldName>, name: FieldName)
    requires FieldsFollow(kind, names) && Cmdid !in names && name in names
    ensures Locate(Header(kind) + FieldsOf(names), name) == Some(Place(FieldOf(name), Offset(kind, name)))
    decreases |names|
  {
    LocateInLayout(kind, names, name);
    if name != Last(names) {
      NotTheLast(names, name);
      FollowFront(kind, names);
      PlacedAtOffset(kind, Front(names), name);
    } else if |names| > 1 {
      FollowFront(kind, names);
      SizeIsEnd(kind, Front(names));
    } else {
      FirstName(kind, names);
    }
  }

  /** In every kind of message each field has its width and starts at its offset, and nothing comes after. */
  lemma FieldsAreAtTheirOffsets(kind: Kind)
    ensures Size(Layout(kind)) == TotalSize(kind)
    ensures forall name :: name in Body(kind) ==>
      && Locate(Layout(kind), name) == Some(Place(FieldOf(name), Offset(kind, name)))
      && FieldOf(name).Field? && FieldOf(name).size == Width(name)
  {
    CommandIsNoBodyField(kind);
    FieldsFollowEachOther(kind);
    SizeIsEnd(kind, Body(kind));
    forall name | name in Body(kind)
      ensures Locate(Layout(kind), name) == Some(Place(FieldOf(name), Offset(kind, name)))
      ensures FieldOf(name).Field? && FieldOf(name).size == Width(name)
    {
      PlacedAtOffset(kind, Body(kind), name);
      FieldShape(name);
    }
  }

  // ---------------------------------------------------------------- what can be encoded

  /** A message is encoded exactly if each attribute that is packed fits its field. */
  lemma EncodeSucceedsIff(m: Message)
    requires Complete(m)
    ensures forall name :: name in SetOrder(m) ==> name in m.fields
    ensures Encode(m).Success? <==> forall name :: name in SetOrder(m) ==> Carries(name, m.fields[name])
    ensures Encode(m).Success? ==> |Encode(m).value| == TotalSize(m.kind)
  {
    SetOrderIsInBody(m);
    CommandIsNoBodyField(m.kind);
    FieldsAreAtTheirOffsets(m.kind);
    ItemsFitIff(m.kind, Layout(m.kind), SetOrder(m), m.fields);
    PackAllSucceedsIff(Layout(m.kind), Blank(m.kind), Items(SetOrder(m), m.fields));
  }

  lemma ItemsFitIff(kind: Kind, layout: seq<FieldSpec<FieldName>>, order: seq<FieldName>, fields: map<FieldName, Value>)
    requires forall name :: name in order ==>
      && name in fields && name != Cmdid
      && Locate(layout, name) == Some(Place(FieldOf(name), Offset(kind, name)))
    ensures (forall i :: 0 <= i < |order| ==> CanHold(layout, Items(order, fields)[i].0, Items(order, fields)[i].1))
       <==> forall name :: name in order ==> Carries(name, fields[name])
  {
    var items := Items(order, fields);
    forall i | 0 <= i < |order|
      ensures CanHold(layout, items[i].0, items[i].1) <==> Carries(order[i], fields[order[i]])
    {
      FieldCarries(order[i], fields[order[i]]);
    }
  }

  // ---------------------------------------------------------------- what decodes

  predicate IsKnownCommand(b: Byte) {
    b in {0, 1, 2, 3, 4, 7, 8, 11, 12, 13, 14}
  }

  predicate CarriesProof(kind: Kind) {
    kind in {Unlock, LockedTransfer, RefundTransfer, LockExpired}
  }

  /** What is read from a field: a number of its width, or exactly as many bytes. */
  predicate IsReadFrom(name: FieldName, value: Value) {
    if HoldsNumber(name) then value.Num? && 0 <= value.n < Pow256(Width(name))
    else value.Bytes? && |value.bytes| == Width(name)
  }

  lemma ReadAt<N>(layout: seq<FieldSpec<N>>, data: seq<Byte>, name: N, place: Place<N>)
    requires Size(layout) <= |data| && Locate(layout, name) == Some(place)
    ensures place.field.Field? && place.start + place.field.size <= |data|
    ensures GetField(layout, data, name)
         == Success(DecodeValue(place.field, data[place.start..place.start + place.field.size]))
  {
    LocatedInside(layout, name);
  }

  lemma DecodedIsRead(name: FieldName, bytes: seq<Byte>)
    requires name != Cmdid && |bytes| == Width(name)
    ensures FieldOf(name).Field? && IsReadFrom(name, DecodeValue(FieldOf(name), bytes))
    ensures HoldsNumber(name) ==> DecodeValue(FieldOf(name), bytes) == Num(FromBytes(bytes))
  {
    FieldShape(name);
  }

  lemma FieldIsReadFrom(layout: seq<FieldSpec<FieldName>>, data: seq<Byte>, name: FieldName, offset: nat)
    requires Size(layout) <= |data| && name != Cmdid
    requires Locate(layout, name) == Some(Place(FieldOf(name), offset))
    ensures offset + Width(name) <= |data|
    ensures GetField(layout, data, name).Success? && IsReadFrom(name, GetField(layout, data, name).value)
    ensures HoldsNumber(name) ==>
      GetField(layout, data, name).value == Num(FromBytes(data[offset..offset + Width(name)]))
  {
    FieldShape(name);
    ReadAt(layout, data, name, Place(FieldOf(name), offset));
    DecodedIsRead(name, data[offset..offset + Width(name)]);
  }

  lemma UnpackedIsGot(kind: Kind, layout: seq<FieldSpec<FieldName>>, names: seq<FieldName>, data: seq<Byte>, name: FieldName)
    requires Size(layout) <= |data| && forall n :: n in names ==> GetField(layout, data, n).Success?
    requires name in names && (kind == RefundTransfer ==> PaymentHashInvoice !in names)
    ensures name in UnpackNames(kind, layout, names, data)
    ensures UnpackNames(kind, layout, names, data)[name] == GetField(layout, data, name).value
  {
  }

  lemma NameIsRead(kind: Kind, layout: seq<FieldSpec<FieldName>>, names: seq<FieldName>, data: seq<Byte>, name: FieldName)
    requires Size(layout) <= |data| && forall n :: n in names ==> GetField(layout, data, n).Success?
    requires name in names && name != Cmdid && (kind == RefundTransfer ==> PaymentHashInvoice !in names)
    requires Locate(layout, name) == Some(Place(FieldOf(name), Offset(kind, name)))
    ensures Offset(kind, name) + Width(name) <= |data|
    ensures var fields := UnpackNames(kind, layout, names, data);
      && name in fields && IsReadFrom(name, fields[name])
      && (HoldsNumber(name) ==>
           fields[name] == Num(FromBytes(data[Offset(kind, name)..Offset(kind, name) + Width(name)])))
  {
    FieldIsReadFrom(layout, data, name, Offset(kind, name));
    UnpackedIsGot(kind, layout, names, data, name);
  }

  lemma FieldIsRead(kind: Kind, data: seq<Byte>, name: FieldName)
    requires TotalSize(kind) <= |data| && name in Body(kind)
    ensures Size(Layout(kind)) <= |data| && Offset(kind, name) + Width(name) <= |data|
    ensures name in Unpack(kind, data) && IsReadFrom(name, Unpack(kind, data)[name])
    ensures HoldsNumber(name) ==>
      Unpack(kind, data)[name] == Num(FromBytes(data[Offset(kind, name)..Offset(kind, name) + Width(name)]))
  {
    FieldsAreAtTheirOffsets(kind);
    CommandIsNoBodyField(kind);
    RefundHasNoInvoice();
    BodyFieldsAreFound(kind, data);
    NameIsRead(kind, Layout(kind), Body(kind), data, name);
  }

  lemma ProofFields(kind: Kind)
    requires CarriesProof(kind)
    ensures Nonce in Body(kind) && ChannelIdentifier in Body(kind) && TransferredAmount in Body(kind)
    ensures LockedAmount in Body(kind) && Locksroot in Body(kind)
    ensures kind == Unlock ==> PaymentIdentifier in Body(kind) && Secret in Body(kind)
  {
  }

  lemma TransferFieldNames(kind: Kind)
    requires kind == LockedTransfer || kind == RefundTransfer
    ensures PaymentIdentifier in Body(kind) && Token in Body(kind) && Recipient in Body(kind) && Target in Body(kind)
    ensures Initiator in Body(kind) && Fee in Body(kind) && Amount in Body(kind) && Expiration in Body(kind)
    ensures SecretHash in Body(kind)
  {
  }

  function Largest(name: FieldName): nat {
    if Width(name) == 1 then 255 else if Width(name) == 8 then UINT64_MAX else UINT256_MAX
  }

  /** An attribute that is there, and in the range that its width allows. */
  predicate InWidth(fields: map<FieldName, Value>, name: FieldName) {
    if HoldsNumber(name) then NumberIn(fields, name, 0, Largest(name)) else Wide(fields, name, Width(name))
  }

  lemma ReadIsInWidth(fields: map<FieldName, Value>, name: FieldName)
    requires name in fields && IsReadFrom(name, fields[name])
    ensures InWidth(fields, name)
  {
    WidthOfUint256();
  }

  lemma UnpackedIsInWidth(kind: Kind, data: seq<Byte>) returns (fields: map<FieldName, Value>)
    requires TotalSize(kind) <= |data|
    ensures Size(Layout(kind)) <= |data| && fields == Unpack(kind, data)
    ensures forall name :: name in Body(kind) ==> InWidth(fields, name)
  {
    FieldsAreAtTheirOffsets(kind);
    fields := Unpack(kind, data);
    forall name | name in Body(kind) ensures InWidth(fields, name) {
      FieldIsRead(kind, data, name);
      ReadIsInWidth(fields, name);
    }
  }

  predicate ProofInWidth(fields: map<FieldName, Value>) {
    && InWidth(fields, Nonce) && InWidth(fields, ChannelIdentifier) && InWidth(fields, TransferredAmount)
    && InWidth(fields, LockedAmount) && InWidth(fields, Locksroot)
  }

  predicate TransferInWidth(fields: map<FieldName, Value>) {
    && InWidth(fields, PaymentIdentifier) && InWidth(fields, Token) && InWidth(fields, Recipient)
    && InWidth(fields, Target) && InWidth(fields, Initiator) && InWidth(fields, Fee) && InWidth(fields, Amount)
    && InWidth(fields, Expiration) && InWidth(fields, SecretHash)
  }

  /** Of what is in width, only a nonce of zero is refused by a constructor. */
  lemma InWidthIsConstructibleIff(kind: Kind, fields: map<FieldName, Value>)
    requires CarriesProof(kind) ==> ProofInWidth(fields)
    requires kind == Unlock ==> InWidth(fields, PaymentIdentifier) && InWidth(fields, Secret)
    requires kind == LockedTransfer || kind == RefundTransfer ==> TransferInWidth(fields)
    ensures Constructible(kind, fields) <==> (CarriesProof(kind) ==> Nonce in fields && fields[Nonce] != Num(0))
  {
    if kind == LockedTransfer || kind == RefundTransfer {
      TransferConstructibleIff(kind, fields);
    } else if kind == Unlock {
      UnlockConstructibleIff(fields);
    }
  }

  lemma UnlockConstructibleIff(fields: map<FieldName, Value>)
    requires ProofInWidth(fields) && InWidth(fields, PaymentIdentifier) && InWidth(fields, Secret)
    ensures Constructible(Unlock, fields) <==> Nonce in fields && fields[Nonce] != Num(0)
  {
  }

  predicate TransferInRange(fields: map<FieldName, Value>) {
    && NumberIn(fields, PaymentIdentifier, 0, UINT64_MAX)
    && Wide(fields, Token, 20) && Wide(fields, Recipient, 20) && Wide(fields, Target, 20) && Wide(fields, Initiator, 20)
    && NumberIn(fields, Fee, 0, UINT256_MAX) && NumberIn(fields, Amount, 0, UINT256_MAX)
    && NumberIn(fields, Expiration, 0, UINT256_MAX) && Wide(fields, SecretHash, 32)
  }

  predicate ProofInRange(fields: map<FieldName, Value>) {
    && NumberIn(fields, Nonce, 0, UINT64_MAX) && NumberIn(fields, ChannelIdentifier, 0, UINT256_MAX)
    && NumberIn(fields, TransferredAmount, 0, UINT256_MAX) && NumberIn(fields, LockedAmount, 0, UINT256_MAX)
    && Wide(fields, Locksroot, 32)
  }

  lemma ProofWidths(fields: map<FieldName, Value>)
    requires ProofInWidth(fields)
    ensures ProofInRange(fields)
  {
  }

  lemma AddressWidths(fields: map<FieldName, Value>)
    requires InWidth(fields, Token) && InWidth(fields, Recipient) && InWidth(fields, Target) && InWidth(fields, Initiator)
    ensures Wide(fields, Token, 20) && Wide(fields, Recipient, 20) && Wide(fields, Target, 20) && Wide(fields, Initiator, 20)
  {
  }

  lemma LockWidths(fields: map<FieldName, Value>)
    requires InWidth(fields, PaymentIdentifier) && InWidth(fields, Fee) && InWidth(fields, Amount)
    requires InWidth(fields, Expiration) && InWidth(fields, SecretHash)
    ensures NumberIn(fields, PaymentIdentifier, 0, UINT64_MAX) && NumberIn(fields, Fee, 0, UINT256_MAX)
    ensures NumberIn(fields, Amount, 0, UINT256_MAX) && NumberIn(fields, Expiration, 0, UINT256_MAX)
    ensures Wide(fields, SecretHash, 32)
  {
  }

  lemma InRangeIsConstructibleIff(kind: Kind, fields: map<FieldName, Value>)
    requires (kind == LockedTransfer || kind == RefundTransfer) && ProofInRange(fields) && TransferInRange(fields)
    ensures Constructible(kind, fields) <==> Nonce in fields && fields[Nonce] != Num(0)
  {
  }

  lemma TransferConstructibleIff(kind: Kind, fields: map<FieldName, Value>)
    requires (kind == LockedTransfer || kind == RefundTransfer) && ProofInWidth(fields) && TransferInWidth(fields)
    ensures Constructible(kind, fields) <==> Nonce in fields && fields[Nonce] != Num(0)
  {
    ProofWidths(fields);
    AddressWidths(fields);
    LockWidths(fields);
    InRangeIsConstructibleIff(kind, fields);
  }

  lemma UnpackedIsConstructibleIff(kind: Kind, data: seq<Byte>)
    requires TotalSize(kind) <= |data|
    ensures Size(Layout(kind)) <= |data|
    ensures var fields := Unpack(kind, data);
      Constructible(kind, fields) <==> (CarriesProof(kind) ==> Nonce in fields && fields[Nonce] != Num(0))
  {
    var fields := UnpackedIsInWidth(kind, data);
    if CarriesProof(kind) {
      ProofFields(kind);
    }
    if kind == LockedTransfer || kind == RefundTransfer {
      TransferFieldNames(kind);
    }
    InWidthIsConstructibleIff(kind, fields);
  }

  lemma {:induction false} ZeroIffAllZero(bytes: seq<Byte>)
    ensures FromBytes(bytes) == 0 <==> forall i :: 0 <= i < |bytes| ==> bytes[i] == 0
  {
    if bytes != [] {
      var front := bytes[..|bytes| - 1];
      ZeroIffAllZero(front);
      assert forall i :: 0 <= i < |front| ==> front[i] == bytes[i];
    }
  }

  /**
    A byte string decodes exactly if it starts with a known command, is long enough for it, and, in a
    message with a balance proof, has a nonce that is not all zero bytes.
   */
  lemma DecodeSucceedsIff(data: seq<Byte>)
    ensures Decode(data).Success? <==>
      && data != [] && IsKnownCommand(data[0])
      && KindOf(data[0]).Some? && var kind := KindOf(data[0]).value;
      && TotalSize(kind) <= |data|
      && (CarriesProof(kind) ==> exists i :: 0 <= i < 8 && NonceByte(kind, data, i) != 0)
    ensures Decode(data).Success? ==> Some(Decode(data).value.kind) == KindOf(data[0])
  {
    CommandBytes();
    if data != [] && KindOf(data[0]).Some? {
      KnownCommandDecodesIff(KindOf(data[0]).value, data);
    }
  }

  lemma KnownCommandDecodesIff(kind: Kind, data: seq<Byte>)
    requires data != [] && KindOf(data[0]) == Some(kind)
    ensures Decode(data).Success? <==>
      TotalSize(kind) <= |data| && (CarriesProof(kind) ==> exists i :: 0 <= i < 8 && NonceByte(kind, data, i) != 0)
    ensures Decode(data).Success? ==> Decode(data).value.kind == kind
  {
    FieldsAreAtTheirOffsets(kind);
    if TotalSize(kind) <= |data| {
      DecodeUnpacks(kind, data);
      UnpackedIsConstructibleIff(kind, data);
      if CarriesProof(kind) {
        UnpackedNonceIsZeroIff(kind, data);
      }
    }
  }

  lemma UnpackedNonceIsZeroIff(kind: Kind, data: seq<Byte>)
    requires CarriesProof(kind) && TotalSize(kind) <= |data|
    ensures Size(Layout(kind)) <= |data| && Nonce in Unpack(kind, data)
    ensures Unpack(kind, data)[Nonce] != Num(0) <==> exists i :: 0 <= i < 8 && NonceByte(kind, data, i) != 0
  {
    ProofFields(kind);
    FieldIsRead(kind, data, Nonce);
    NonceIsZeroIff(kind, data);
  }

  function NonceByte(kind: Kind, data: seq<Byte>, i: nat): int {
    if Offset(kind, Nonce) + i < |data| then data[Offset(kind, Nonce) + i] else 0
  }

  lemma NonceIsZeroIff(kind: Kind, data: seq<Byte>)
    requires Offset(kind, Nonce) + 8 <= |data|
    ensures FromBytes(data[Offset(kind, Nonce)..Offset(kind, Nonce) + 8]) != 0
       <==> exists i :: 0 <= i < 8 && NonceByte(kind, data, i) != 0
  {
    var offset := Offset(kind, Nonce);
    var bytes := data[offset..offset + 8];
    ZeroIffAllZero(bytes);
    forall i | 0 <= i < 8 ensures NonceByte(kind, data, i) == bytes[i] {
      assert bytes[i] == data[offset + i];
    }
  }

  /** Each command byte names its kind of message, and no other byte names one. */
  lemma CommandBytes()
    ensures KindOf(0) == Some(Processed) && KindOf(1) == Some(Ping) && KindOf(2) == Some(Pong)
    ensures KindOf(3) == Some(SecretRequest) && KindOf(4) == Some(Unlock) && KindOf(7) == Some(LockedTransfer)
    ensures KindOf(8) == Some(RefundTransfer) && KindOf(11) == Some(RevealSecret) && KindOf(12) == Some(Delivered)
    ensures KindOf(13) == Some(LockExpired) && KindOf(14) == Some(ToDevice)
    ensures forall b: Byte :: KindOf(b).Some? <==> IsKnownCommand(b)
  {
  }
}
