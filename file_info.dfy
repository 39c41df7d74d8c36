/**
  The file metadata record exchanged at the start of an SCP transfer, its two
  initialisers and its fixed 26-byte binary layout.
 */
module FileInfo {
  import opened Wrappers
  import opened Bytes

  /** An 8-byte block holding a `TimeInterval` (an IEEE-754 double); its contents are not interpreted. */
  type TimeBlock = s: seq<Byte> | |s| == 8 witness [0, 0, 0, 0, 0, 0, 0, 0]

  predicate IsInt32(x: int) { -0x8000_0000 <= x < 0x8000_0000 }
  predicate IsUInt16(x: int) { 0 <= x < 0x1_0000 }

  /** `fileSize: Int32`, `modificationTime`, `accessTime`, `permissions: UInt16`. */
  datatype Info = Info(fileSize: int, modificationTime: TimeBlock, accessTime: TimeBlock, permissions: int)
  {
    predicate Valid() { IsInt32(fileSize) && IsUInt16(permissions) }
  }

  /** The fields of a `stat` record the initialiser reads; `st_mode` is Darwin's 16-bit `mode_t`. */
  datatype Stat = Stat(st_size: int, st_mtime: TimeBlock, st_atime: TimeBlock, st_mode: int)

  /**
    `init(fromStat:)`: `Int32(st_size)` traps when the size does not fit 32 bits, so
    callers must supply such a size; the mode is kept verbatim, file-type bits included.
   */
  function FromStat(st: Stat): (info: Info)
    requires IsInt32(st.st_size) && IsUInt16(st.st_mode)
    ensures info.Valid()
    ensures info.fileSize == st.st_size && info.permissions == st.st_mode
    ensures info.modificationTime == st.st_mtime && info.accessTime == st.st_atime
  {
    Info(st.st_size, st.st_mtime, st.st_atime, st.st_mode)
  }

  /** A value of Foundation's file attribute dictionary, as far as the initialiser inspects it. */
  datatype AttributeValue = Missing | Number(n: int) | Date(time: TimeBlock) | OtherValue

  /** The four attributes `init(fromLocalPath:)` looks up. */
  datatype Attributes = Attributes(
    size: AttributeValue,
    modificationDate: AttributeValue,
    creationDate: AttributeValue,
    posixPermissions: AttributeValue)

  /** `value as? Int32 ?? 0`: a number that fits 32 signed bits, else 0. */
  function AsInt32OrZero(v: AttributeValue): (r: int)
    ensures IsInt32(r)
    ensures r != 0 ==> v.Number? && v.n == r
    ensures v.Number? && IsInt32(v.n) ==> r == v.n
  {
    if v.Number? && IsInt32(v.n) then v.n else 0
  }

  /** `value as? UInt16 ?? 0`. */
  function AsUInt16OrZero(v: AttributeValue): (r: int)
    ensures IsUInt16(r)
    ensures r != 0 ==> v.Number? && v.n == r
    ensures v.Number? && IsUInt16(v.n) ==> r == v.n
  {
    if v.Number? && IsUInt16(v.n) then v.n else 0
  }

  /** `value as? Date ?? Date.init()`, where `now` is the current date. */
  function AsDateOr(v: AttributeValue, now: TimeBlock): (r: TimeBlock)
    ensures v.Date? ==> r == v.time
    ensures !v.Date? ==> r == now
  {
    if v.Date? then v.time else now
  }

  /**
    `init(fromLocalPath:)`: the attribute lookup (file-system I/O) is the parameter
    `lookup`, and may throw; missing or mistyped attributes fall back to defaults.
    The access time is taken from the creation date.
   */
  function FromLocalPath<E>(lookup: Result<Attributes, E>, now: TimeBlock): (r: Result<Info, E>)
    ensures lookup.Failure? ==> r == Failure(lookup.error)
    ensures lookup.Success? ==> r.Success? && r.value.Valid()
  {
    match lookup
    case Failure(e) => Failure(e)
    case Success(a) =>
      Success(Info(
        AsInt32OrZero(a.size),
        AsDateOr(a.modificationDate, now),
        AsDateOr(a.creationDate, now),
        AsUInt16OrZero(a.posixPermissions)))
  }

  lemma FromLocalPathDefaults<E>(a: Attributes, now: TimeBlock)
    ensures var info := FromLocalPath<E>(Success(a), now).value;
      && (a.size == Missing ==> info.fileSize == 0)
      && (a.posixPermissions == Missing ==> info.permissions == 0)
      && (a.size.OtherValue? || a.size.Date? ==> info.fileSize == 0)
      && (a.size.Number? && !IsInt32(a.size.n) ==> info.fileSize == 0)
      && (a.creationDate.Date? ==> info.accessTime == a.creationDate.time)
      && (!a.modificationDate.Date? ==> info.modificationTime == now)
  {
  }

  /** `Int16(self.permissions)` traps above 0x7FFF; `toData` is defined only below that. */
  predicate CanEncode(info: Info)
  {
    info.Valid() && info.permissions <= 0x7FFF
  }

  /**
    `toData()`: four successive appends, giving the size sign-extended to Int64, the two
    time blocks, and the permissions as an Int16, each in little-endian byte order.
   */
  method ToData(info: Info) returns (data: seq<Byte>)
    requires CanEncode(info)
    ensures |data| == 26
    ensures DecodeSigned(data[0..8]) == info.fileSize
    ensures data[8..16] == info.modificationTime && data[16..24] == info.accessTime
    ensures DecodeSigned(data[24..26]) == info.permissions
    ensures FromData(data) == Some(info)
  {
    data := [];
    data := data + EncodeSigned(info.fileSize, 8);
    data := data + info.modificationTime;
    data := data + info.accessTime;
    data := data + EncodeSigned(info.permissions, 2);
    assert data[0..8] == EncodeSigned(info.fileSize, 8);
    assert data[24..26] == EncodeSigned(info.permissions, 2);
    DecodeEncodeSigned(info.fileSize, 8);
    DecodeEncodeSigned(info.permissions, 2);
  }

  /** The reading side of the layout: the inverse of `ToData`. */
  function FromData(data: seq<Byte>): (r: Option<Info>)
    ensures r.Some? ==> |data| == 26 && CanEncode(r.value)
  {
    if |data| != 26 then None
    else
      var size := DecodeSigned(data[0..8]);
      var perms := DecodeSigned(data[24..26]);
      if IsInt32(size) && 0 <= perms then Some(Info(size, data[8..16], data[16..24], perms))
      else None
  }

  /** The size occupies bytes 0-7 as the 32-bit value sign-extended to 64 bits. */
  lemma SizeIsSignExtended(info: Info, data: seq<Byte>)
    requires CanEncode(info) && |data| == 26 && FromData(data) == Some(info)
    ensures data[0..4] == EncodeSigned(info.fileSize, 4)
    ensures data[4..8] == if info.fileSize < 0 then [255, 255, 255, 255] else [0, 0, 0, 0]
  {
    EncodeDecodeSigned(data[0..8]);
    SignExtension(info.fileSize, 4, 8);
    var s: Byte := if info.fileSize < 0 then 255 else 0;
    assert data[0..8] == EncodeSigned(info.fileSize, 4) + Fill(s, 4);
    assert data[0..4] == data[0..8][..4];
    assert data[4..8] == data[0..8][4..];
    assert Fill(s, 4) == [s, s, s, s];
  }

  /** Every 26-byte string `FromData` accepts is the image of the record it decodes to. */
  lemma ToDataFromData(data: seq<Byte>)
    requires FromData(data).Some?
    ensures var info := FromData(data).value;
      data == EncodeSigned(info.fileSize, 8) + info.modificationTime + info.accessTime
        + EncodeSigned(info.permissions, 2)
  {
    EncodeDecodeSigned(data[0..8]);
    EncodeDecodeSigned(data[24..26]);
    assert data == data[0..8] + data[8..16] + data[16..24] + data[24..26];
  }

  /**
    As written, a record built from a `stat` of a regular file (mode 0o100644) holds
    permission bits above 0x7FFF, so `toData` traps on it.
   */
  lemma RegularFileStatCannotEncode(st: Stat)
    requires IsInt32(st.st_size) && st.st_mode == 0x81A4
    ensures !CanEncode(FromStat(st))
  {
  }

  /**
    The evident intent of the permissions field: its 16-bit pattern
    (`Int16(truncatingIfNeeded:)`), defined for every `UInt16`.
   */
  function ToDataBitPattern(info: Info): (data: seq<Byte>)
    requires info.Valid()
    ensures |data| == 26
    ensures FromDataBitPattern(data) == Some(info)
  {
    var d := EncodeSigned(info.fileSize, 8) + info.modificationTime + info.accessTime
      + EncodeUnsigned(info.permissions, 2);
    assert d[0..8] == EncodeSigned(info.fileSize, 8);
    assert d[24..26] == EncodeUnsigned(info.permissions, 2);
    assert d[8..16] == info.modificationTime && d[16..24] == info.accessTime;
    DecodeEncodeSigned(info.fileSize, 8);
    DecodeEncodeUnsigned(info.permissions, 2);
    d
  }

  function FromDataBitPattern(data: seq<Byte>): (r: Option<Info>)
    ensures r.Some? ==> |data| == 26 && r.value.Valid()
  {
    if |data| != 26 then None
    else
      var size := DecodeSigned(data[0..8]);
      if IsInt32(size) then Some(Info(size, data[8..16], data[16..24], DecodeUnsigned(data[24..26])))
      else None
  }

  /** The corrected layout agrees with `ToData` wherever `ToData` is defined. */
  lemma BitPatternAgreesBelowSignBit(info: Info)
    requires CanEncode(info)
    ensures ToDataBitPattern(info) == EncodeSigned(info.fileSize, 8) + info.modificationTime
      + info.accessTime + EncodeSigned(info.permissions, 2)
  {
  }
}
