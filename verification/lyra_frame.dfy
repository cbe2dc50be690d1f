/** The Hermit Retro Lyra handheld's button frame: five bytes sent by its
    ATmega32u4 over the serial line. Bytes 0 to 3 each carry a two-bit
    position tag in their top bits and button bits below it; byte 4 is a
    checksum. This module holds the frame layout, the checksum and the
    decision the poll makes about a frame, as pure functions. */
module LyraFrame {

  // The frame layout.
  const TypeMask: bv8 := 0xC0
  const B0Type: bv8 := 0x00
  const B1Type: bv8 := 0x40
  const VolumeUpMask: bv8 := 0x04
  const VolumeDownMask: bv8 := 0x02
  const BottomRight3Mask: bv8 := 0x01
  const B2Type: bv8 := 0x80
  const TopLeftMask: bv8 := 0x20
  const LeftUpMask: bv8 := 0x10
  const LeftLeftMask: bv8 := 0x08
  const LeftRightMask: bv8 := 0x04
  const LeftDownMask: bv8 := 0x02
  const TopRightMask: bv8 := 0x01
  const B3Type: bv8 := 0xC0
  const RightUpMask: bv8 := 0x20
  const RightLeftMask: bv8 := 0x10
  const RightRightMask: bv8 := 0x08
  const RightDownMask: bv8 := 0x04
  const BottomRight1Mask: bv8 := 0x02
  const BottomRight2Mask: bv8 := 0x01

  /** HERMITRETRO_LYRA_MAX_VOLUME */
  const MaxVolume := 40

  // Slots of `buttonsPressed`.
  const TopLeftIndex := 0
  const VolumeUpIndex := 13
  const VolumeDownIndex := 14
  const NumButtons := 15

  /** The masks of one byte are single bits. */
  predicate SingleBit(m: bv8) {
    m != 0 && m & (m - 1) == 0
  }

  /** The four position tags are distinct values of the two tag bits. */
  lemma TagsDistinct()
    ensures B0Type & TypeMask == B0Type && B1Type & TypeMask == B1Type
    ensures B2Type & TypeMask == B2Type && B3Type & TypeMask == B3Type
    ensures B0Type != B1Type && B0Type != B2Type && B0Type != B3Type
    ensures B1Type != B2Type && B1Type != B3Type && B2Type != B3Type
  {
  }

  /** Every button mask is a single bit below the tag bits, and the masks of
      one byte are pairwise disjoint. */
  lemma MasksDisjoint()
    ensures forall m :: m in {VolumeUpMask, VolumeDownMask, BottomRight3Mask} ==> SingleBit(m) && m & TypeMask == 0
    ensures VolumeUpMask & VolumeDownMask == 0 && VolumeUpMask & BottomRight3Mask == 0
    ensures VolumeDownMask & BottomRight3Mask == 0
    ensures forall m :: m in {TopLeftMask, LeftUpMask, LeftLeftMask, LeftRightMask, LeftDownMask, TopRightMask} ==>
              SingleBit(m) && m & TypeMask == 0
    ensures (TopLeftMask | LeftUpMask | LeftLeftMask | LeftRightMask | LeftDownMask | TopRightMask) == 0x3F
    ensures forall m :: m in {RightUpMask, RightLeftMask, RightRightMask, RightDownMask, BottomRight1Mask, BottomRight2Mask} ==>
              SingleBit(m) && m & TypeMask == 0
    ensures (RightUpMask | RightLeftMask | RightRightMask | RightDownMask | BottomRight1Mask | BottomRight2Mask) == 0x3F
  {
  }

  /** The checksum the poll expects in byte 4: the sum of bytes 0 to 3,
      truncated to a byte, with every bit inverted. */
  function ChecksumOf(b0: bv8, b1: bv8, b2: bv8, b3: bv8): bv8 {
    (b0 + b1 + b2 + b3) ^ 0xFF
  }

  function Checksum(frame: seq<bv8>): bv8
    requires |frame| >= 4
  {
    ChecksumOf(frame[0], frame[1], frame[2], frame[3])
  }

  predicate ChecksumOk(frame: seq<bv8>): (ok: bool)
    requires |frame| == 5
    ensures ok <==> frame[4] ^ 0xFF == frame[0] + frame[1] + frame[2] + frame[3]
  {
    Checksum(frame) == frame[4]
  }

  /** Byte `b` carries position tag `tag`. */
  predicate Tagged(b: bv8, tag: bv8): (t: bool)
    ensures t ==> tag & TypeMask == tag
  {
    b & TypeMask == tag
  }

  predicate Has(b: bv8, mask: bv8) {
    b & mask == mask
  }

  /** A change to the table the poll makes: pressButton or releaseButton. */
  datatype ButtonAction = ButtonDown(index: nat) | ButtonUp(index: nat)

  /** What `hermitretro_lyra_poll` does with a frame of five bytes, in
      order. A bad checksum does nothing. In byte 1 (when tagged), VOLUME_UP
      ends the frame, VOLUME_DOWN is pressed and ends the frame, otherwise
      VOLUME_DOWN is released and BOTTOM_RIGHT_3 ends the frame. In byte 2
      (when tagged), TOP_LEFT is pressed and ends the frame, otherwise it is
      released. Everything else only ends the frame or prints. */
  function FrameActions(frame: seq<bv8>): (r: seq<ButtonAction>)
    requires |frame| == 5
    ensures |r| <= 2
  {
    if !ChecksumOk(frame) then []
    else
      var b1 := frame[1];
      var b2 := frame[2];
      if Tagged(b1, B1Type) && Has(b1, VolumeUpMask) then []
      else if Tagged(b1, B1Type) && Has(b1, VolumeDownMask) then [ButtonDown(VolumeDownIndex)]
      else
        var first := if Tagged(b1, B1Type) then [ButtonUp(VolumeDownIndex)] else [];
        if Tagged(b1, B1Type) && Has(b1, BottomRight3Mask) then first
        else if Tagged(b2, B2Type) && Has(b2, TopLeftMask) then first + [ButtonDown(TopLeftIndex)]
        else if Tagged(b2, B2Type) then first + [ButtonUp(TopLeftIndex)]
        else first
  }

  /** The state of every button and the battery level, as the firmware
      reports them. */
  datatype LyraButtons = LyraButtons(
    battery: bv8,
    volumeUp: bool, volumeDown: bool, bottomRight3: bool,
    topLeft: bool, leftUp: bool, leftLeft: bool, leftRight: bool, leftDown: bool, topRight: bool,
    rightUp: bool, rightLeft: bool, rightRight: bool, rightDown: bool, bottomRight1: bool, bottomRight2: bool)

  /** The battery level fits the six bits below the tag. */
  predicate BatteryFits(p: LyraButtons) {
    p.battery & TypeMask == 0
  }

  function Bit(flag: bool, mask: bv8): bv8 {
    if flag then mask else 0
  }

  /** Byte 1 of the frame the firmware sends: the tag and the volume keys. */
  function Byte1(volumeUp: bool, volumeDown: bool, bottomRight3: bool): bv8 {
    B1Type | Bit(volumeUp, VolumeUpMask) | Bit(volumeDown, VolumeDownMask) | Bit(bottomRight3, BottomRight3Mask)
  }

  /** Bytes 2 and 3: a tag and six button bits, 0x20 down to 0x01. */
  function Byte6(tag: bv8, x5: bool, x4: bool, x3: bool, x2: bool, x1: bool, x0: bool): bv8 {
    tag | Bit(x5, 0x20) | Bit(x4, 0x10) | Bit(x3, 0x08) | Bit(x2, 0x04) | Bit(x1, 0x02) | Bit(x0, 0x01)
  }

  /** The frame the firmware sends, per the layout: each byte its tag OR'd
      with its button bits, then the checksum. */
  function EncodeFrame(p: LyraButtons): (frame: seq<bv8>)
    ensures |frame| == 5
  {
    var b0 := B0Type | p.battery;
    var b1 := Byte1(p.volumeUp, p.volumeDown, p.bottomRight3);
    var b2 := Byte6(B2Type, p.topLeft, p.leftUp, p.leftLeft, p.leftRight, p.leftDown, p.topRight);
    var b3 := Byte6(B3Type, p.rightUp, p.rightLeft, p.rightRight, p.rightDown, p.bottomRight1, p.bottomRight2);
    [b0, b1, b2, b3, ChecksumOf(b0, b1, b2, b3)]
  }

  /** Every button read back through its mask, and the battery level. */
  function ReadButtons(frame: seq<bv8>): (p: LyraButtons)
    requires |frame| == 5
    ensures p.battery <= 0x3F
  {
    ReadBytes(frame[0], frame[1], frame[2], frame[3])
  }

  function ReadBytes(b0: bv8, b1: bv8, b2: bv8, b3: bv8): LyraButtons {
    LyraButtons(b0 & 0x3F,
      Has(b1, VolumeUpMask), Has(b1, VolumeDownMask), Has(b1, BottomRight3Mask),
      Has(b2, TopLeftMask), Has(b2, LeftUpMask), Has(b2, LeftLeftMask),
      Has(b2, LeftRightMask), Has(b2, LeftDownMask), Has(b2, TopRightMask),
      Has(b3, RightUpMask), Has(b3, RightLeftMask), Has(b3, RightRightMask),
      Has(b3, RightDownMask), Has(b3, BottomRight1Mask), Has(b3, BottomRight2Mask))
  }

  lemma Byte1Reads(volumeUp: bool, volumeDown: bool, bottomRight3: bool)
    ensures var b := Byte1(volumeUp, volumeDown, bottomRight3);
      Tagged(b, B1Type) && Has(b, VolumeUpMask) == volumeUp && Has(b, VolumeDownMask) == volumeDown
      && Has(b, BottomRight3Mask) == bottomRight3
  {
  }

  lemma Byte6Reads(tag: bv8, x5: bool, x4: bool, x3: bool, x2: bool, x1: bool, x0: bool)
    requires tag & 0x3F == 0
    ensures var b := Byte6(tag, x5, x4, x3, x2, x1, x0);
      Tagged(b, tag) && Has(b, 0x20) == x5 && Has(b, 0x10) == x4 && Has(b, 0x08) == x3
      && Has(b, 0x04) == x2 && Has(b, 0x02) == x1 && Has(b, 0x01) == x0
  {
  }

  /** The four data bytes of the frame the firmware sends. */
  lemma BytesRoundTrip(p: LyraButtons)
    requires BatteryFits(p)
    ensures ReadBytes(B0Type | p.battery, Byte1(p.volumeUp, p.volumeDown, p.bottomRight3),
              Byte6(B2Type, p.topLeft, p.leftUp, p.leftLeft, p.leftRight, p.leftDown, p.topRight),
              Byte6(B3Type, p.rightUp, p.rightLeft, p.rightRight, p.rightDown, p.bottomRight1, p.bottomRight2))
         == p
  {
    Byte1Reads(p.volumeUp, p.volumeDown, p.bottomRight3);
    Byte6Reads(B2Type, p.topLeft, p.leftUp, p.leftLeft, p.leftRight, p.leftDown, p.topRight);
    Byte6Reads(B3Type, p.rightUp, p.rightLeft, p.rightRight, p.rightDown, p.bottomRight1, p.bottomRight2);
  }

  /** A frame built per the layout passes the checksum. */
  lemma EncodeChecksumOk(p: LyraButtons)
    ensures ChecksumOk(EncodeFrame(p))
  {
    var f := EncodeFrame(p);
    assert f[4] == ChecksumOf(f[0], f[1], f[2], f[3]);
  }

  /** A frame built per the layout carries the right tag in every byte. */
  lemma EncodeTagged(p: LyraButtons)
    requires BatteryFits(p)
    ensures Tagged(EncodeFrame(p)[0], B0Type) && Tagged(EncodeFrame(p)[1], B1Type)
    ensures Tagged(EncodeFrame(p)[2], B2Type) && Tagged(EncodeFrame(p)[3], B3Type)
  {
    Byte1Reads(p.volumeUp, p.volumeDown, p.bottomRight3);
    Byte6Reads(B2Type, p.topLeft, p.leftUp, p.leftLeft, p.leftRight, p.leftDown, p.topRight);
    Byte6Reads(B3Type, p.rightUp, p.rightLeft, p.rightRight, p.rightDown, p.bottomRight1, p.bottomRight2);
  }

  /** Every mask recovers its button from a frame built per the layout,
      and the low six bits of byte 0 recover the battery level. */
  lemma EncodeReadRoundTrip(p: LyraButtons)
    requires BatteryFits(p)
    ensures ReadButtons(EncodeFrame(p)) == p
  {
    BytesRoundTrip(p);
  }

  /** The poll's decision on a well-formed frame, stated from the buttons:
      VOLUME_UP wins over everything, then VOLUME_DOWN; otherwise
      VOLUME_DOWN is released and, unless BOTTOM_RIGHT_3 is down, TOP_LEFT
      is pressed or released. TOP_RIGHT, the four directions, the right pad
      and the battery level never change anything. */
  function ExpectedActions(p: LyraButtons): seq<ButtonAction> {
    if p.volumeUp then []
    else if p.volumeDown then [ButtonDown(VolumeDownIndex)]
    else if p.bottomRight3 then [ButtonUp(VolumeDownIndex)]
    else [ButtonUp(VolumeDownIndex), if p.topLeft then ButtonDown(TopLeftIndex) else ButtonUp(TopLeftIndex)]
  }

  lemma EncodedFrameActions(p: LyraButtons)
    requires BatteryFits(p)
    ensures FrameActions(EncodeFrame(p)) == ExpectedActions(p)
  {
    EncodeChecksumOk(p);
    EncodeTagged(p);
    EncodeReadRoundTrip(p);
    var f := EncodeFrame(p);
    assert Has(f[1], VolumeUpMask) == p.volumeUp;
    assert Has(f[1], VolumeDownMask) == p.volumeDown;
    assert Has(f[1], BottomRight3Mask) == p.bottomRight3;
    assert Has(f[2], TopLeftMask) == p.topLeft;
  }

  /** A frame whose checksum byte does not match changes nothing. */
  lemma BadChecksumIgnored(frame: seq<bv8>)
    requires |frame| == 5 && Checksum(frame) != frame[4]
    ensures FrameActions(frame) == []
  {
  }

  /** A frame only ever touches VOLUME_DOWN and TOP_LEFT, each at most
      once; a press, if any, is the last action; and VOLUME_DOWN comes
      first. */
  lemma FrameActionsShape(frame: seq<bv8>)
    requires |frame| == 5
    ensures forall i :: 0 <= i < |FrameActions(frame)| ==>
              FrameActions(frame)[i].index in {VolumeDownIndex, TopLeftIndex}
    ensures forall i :: 0 <= i < |FrameActions(frame)| - 1 ==> FrameActions(frame)[i] == ButtonUp(VolumeDownIndex)
    ensures |FrameActions(frame)| == 2 ==> FrameActions(frame)[1].index == TopLeftIndex
    ensures ButtonDown(VolumeDownIndex) in FrameActions(frame) ==> FrameActions(frame) == [ButtonDown(VolumeDownIndex)]
    ensures ButtonDown(VolumeUpIndex) !in FrameActions(frame)
  {
  }

  /** A frame that fails its tag test in byte 1 is skipped there and byte 2
      is still decoded. */
  lemma UntaggedByteSkipped(frame: seq<bv8>)
    requires |frame| == 5 && ChecksumOk(frame) && !Tagged(frame[1], B1Type)
    ensures FrameActions(frame)
         == if !Tagged(frame[2], B2Type) then []
            else if Has(frame[2], TopLeftMask) then [ButtonDown(TopLeftIndex)]
            else [ButtonUp(TopLeftIndex)]
  {
  }

  /** A concrete frame: VOLUME_DOWN held, nothing else, correct checksum. */
  lemma VolumeDownFrame()
    ensures FrameActions([0x00, 0x42, 0x80, 0xC0, 0x7D]) == [ButtonDown(VolumeDownIndex)]
  {
    assert Checksum([0x00, 0x42, 0x80, 0xC0, 0x7D]) == 0x7D;
  }
}
