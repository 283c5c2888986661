// The metadata slot of an executable: its byte layout, reading, writing and injection.
module DistributionSlot {
  import opened Prelude

  type Byte = b: int | 0 <= b < 256

  /** The UTF-8 bytes of a string. */
  type Text = seq<Byte>

  const SLOT_SIZE: nat := 1024
  const MARKER_SIZE: nat := 64
  /** "JUXDISTMETA\0\x01\0\0\0" */
  const MAGIC: seq<Byte> := [0x4a, 0x55, 0x58, 0x44, 0x49, 0x53, 0x54, 0x4d, 0x45, 0x54, 0x41, 0, 1, 0, 0, 0]
  const FILLER: Byte := 0xa5
  const SCHEMA_OFFSET: nat := 64
  const CHANNEL_OFFSET: nat := 66
  const INSTALLER_OFFSET: nat := 67
  const VERSION_OFFSET: nat := 68
  const VERSION_SIZE: nat := 32
  const PACKAGE_OFFSET: nat := 100
  const PACKAGE_SIZE: nat := 128
  const COMMIT_OFFSET: nat := 228
  const COMMIT_SIZE: nat := 40
  const SCHEMA_VERSION: nat := 1

  datatype Channel = UnknownChannel | GithubRelease | HomebrewChannel | WingetChannel

  datatype Installer = UnknownInstaller | Bash | PowerShell | HomebrewInstaller | WingetInstaller | Manual

  datatype Metadata = Metadata(
    schemaVersion: nat,
    channel: Channel,
    installer: Installer,
    applicationVersion: Text,
    packageId: Text,
    sourceCommit: Text)

  datatype Error =
    | InvalidSlotSize(size: nat)
    | InvalidMagic
    | UnsupportedSchema(version: nat)
    | InvalidChannel(value: Byte)
    | InvalidInstaller(value: Byte)
    | InvalidChannelInstallerPair
    | InvalidPackageId(text: Text)
    | InvalidVersion
    | InvalidSourceCommit(text: Text)
    | InvalidText(text: Text)
    | InvalidUtf8
    | SlotNotFound
    | MultipleSlots

  /** What the model takes from libraries and the build: UTF-8 validity, `semver` and the package's own version. */
  datatype Environment = Environment(isUtf8: Text -> bool, isVersion: Text -> bool, packageVersion: Text)

  function PackageIdOf(channel: Channel): (id: Text)
    ensures |id| <= PACKAGE_SIZE && forall b <- id :: 0 < b < 128
  {
    match channel
    case UnknownChannel => []
    case GithubRelease => [0x6a, 0x75, 0x78, 0x2d, 0x32, 0x30, 0x32, 0x36, 0x2f, 0x6a, 0x75, 0x78]
    case HomebrewChannel =>
      [0x6a, 0x75, 0x78, 0x2d, 0x32, 0x30, 0x32, 0x36, 0x2f, 0x74, 0x61, 0x70, 0x2f, 0x6a, 0x75, 0x78]
    case WingetChannel => [0x4a, 0x75, 0x78, 0x2e, 0x4a, 0x75, 0x78]
  }

  function ChannelByte(channel: Channel): Byte {
    match channel
    case UnknownChannel => 0
    case GithubRelease => 1
    case HomebrewChannel => 2
    case WingetChannel => 3
  }

  function ChannelOf(value: Byte): Result<Channel, Error> {
    match value
    case 0 => Ok(UnknownChannel)
    case 1 => Ok(GithubRelease)
    case 2 => Ok(HomebrewChannel)
    case 3 => Ok(WingetChannel)
    case _ => Err(InvalidChannel(value))
  }

  function InstallerByte(installer: Installer): Byte {
    match installer
    case UnknownInstaller => 0
    case Bash => 1
    case PowerShell => 2
    case HomebrewInstaller => 3
    case WingetInstaller => 4
    case Manual => 6
  }

  function InstallerOf(value: Byte): Result<Installer, Error> {
    match value
    case 0 => Ok(UnknownInstaller)
    case 1 => Ok(Bash)
    case 2 => Ok(PowerShell)
    case 3 => Ok(HomebrewInstaller)
    case 4 => Ok(WingetInstaller)
    case 6 => Ok(Manual)
    case _ => Err(InvalidInstaller(value))
  }

  predicate ValidPair(channel: Channel, installer: Installer) {
    match channel
    case UnknownChannel => installer == UnknownInstaller
    case GithubRelease => installer in {Bash, PowerShell, Manual}
    case HomebrewChannel => installer == HomebrewInstaller
    case WingetChannel => installer == WingetInstaller
  }

  /** An installer belongs to one channel, and every channel has one. */
  lemma {:induction false} PairsAreDetermined(installer: Installer, channel: Channel, other: Channel)
    ensures exists c: Channel :: ValidPair(c, installer)
    ensures exists i: Installer :: ValidPair(channel, i)
    ensures ValidPair(channel, installer) && ValidPair(other, installer) ==> channel == other
    ensures PackageIdOf(channel) == PackageIdOf(other) ==> channel == other
  {
    assert ValidPair(UnknownChannel, UnknownInstaller) && ValidPair(GithubRelease, Bash) && ValidPair(GithubRelease, PowerShell);
    assert ValidPair(GithubRelease, Manual) && ValidPair(HomebrewChannel, HomebrewInstaller) && ValidPair(WingetChannel, WingetInstaller);
    assert |PackageIdOf(channel)| == (match channel case UnknownChannel => 0 case GithubRelease => 12 case HomebrewChannel => 16 case WingetChannel => 7);
    assert |PackageIdOf(other)| == (match other case UnknownChannel => 0 case GithubRelease => 12 case HomebrewChannel => 16 case WingetChannel => 7);
  }

  predicate IsHexDigit(b: Byte) {
    0x30 <= b <= 0x39 || 0x41 <= b <= 0x46 || 0x61 <= b <= 0x66
  }

  predicate ValidCommit(text: Text) {
    |text| <= COMMIT_SIZE && forall b <- text :: IsHexDigit(b)
  }

  /** The numeral of a hexadecimal digit in lower or upper case. */
  function HexNumeral(digit: nat, upper: bool): Byte
    requires digit < 16
  {
    if digit < 10 then 0x30 + digit else if upper then 0x41 + (digit - 10) else 0x61 + (digit - 10)
  }

  /** Valid commits are the hexadecimal numerals of up to 40 digits. */
  lemma {:induction false} CommitMeaning(text: Text)
    ensures ValidCommit(text) <==>
            |text| <= 40 && forall i :: 0 <= i < |text| ==> exists digit: nat, upper: bool :: digit < 16 && text[i] == HexNumeral(digit, upper)
  {
    forall i | 0 <= i < |text|
      ensures IsHexDigit(text[i]) <==> exists digit: nat, upper: bool :: digit < 16 && text[i] == HexNumeral(digit, upper)
    {
      HexDigitMeaning(text[i]);
    }
    hide IsHexDigit;
    hide HexNumeral;
    assert (forall b <- text :: IsHexDigit(b)) <==> forall i :: 0 <= i < |text| ==> IsHexDigit(text[i]);
  }

  lemma {:induction false} HexDigitMeaning(b: Byte)
    ensures IsHexDigit(b) <==> exists digit: nat, upper: bool :: digit < 16 && b == HexNumeral(digit, upper)
  {
    if 0x30 <= b <= 0x39 {
      assert b == HexNumeral(b - 0x30, false);
    } else if 0x41 <= b <= 0x46 {
      assert b == HexNumeral(b - 0x41 + 10, true);
    } else if 0x61 <= b <= 0x66 {
      assert b == HexNumeral(b - 0x61 + 10, false);
    }
  }

  // The layout

  function Fill(value: Byte, n: nat): (bytes: seq<Byte>)
    ensures |bytes| == n && forall i :: 0 <= i < n ==> bytes[i] == value
  {
    seq(n, _ => value)
  }

  function Padded(text: Text, size: nat): (bytes: seq<Byte>)
    requires |text| <= size
    ensures |bytes| == size
  {
    text + Fill(0, size - |text|)
  }

  predicate Fits(text: Text, size: nat) {
    0 !in text && |text| <= size
  }

  predicate TextsFit(m: Metadata) {
    Fits(m.applicationVersion, VERSION_SIZE) && Fits(m.packageId, PACKAGE_SIZE) && Fits(m.sourceCommit, COMMIT_SIZE)
  }

  const MARKER: seq<Byte> := MAGIC + Fill(FILLER, 48)

  /** The fields of a slot, one after the other. */
  function Layout(m: Metadata): (slot: seq<Byte>)
    requires TextsFit(m)
    ensures |slot| == SLOT_SIZE
  {
    MARKER + [1, 0, ChannelByte(m.channel), InstallerByte(m.installer)] +
    Padded(m.applicationVersion, VERSION_SIZE) + Padded(m.packageId, PACKAGE_SIZE) + Padded(m.sourceCommit, COMMIT_SIZE) +
    Fill(0, SLOT_SIZE - COMMIT_OFFSET - COMMIT_SIZE)
  }

  /** What `to_slot` answers. */
  function SlotFor(m: Metadata): Result<seq<Byte>, Error> {
    if !ValidPair(m.channel, m.installer) then Err(InvalidChannelInstallerPair)
    else if m.schemaVersion != SCHEMA_VERSION then Err(UnsupportedSchema(m.schemaVersion))
    else if m.packageId != PackageIdOf(m.channel) then Err(InvalidPackageId(m.packageId))
    else if !Fits(m.applicationVersion, VERSION_SIZE) then Err(InvalidText(m.applicationVersion))
    else if !Fits(m.packageId, PACKAGE_SIZE) then Err(InvalidText(m.packageId))
    else if !Fits(m.sourceCommit, COMMIT_SIZE) then Err(InvalidText(m.sourceCommit))
    else Ok(Layout(m))
  }

  function New(env: Environment, channel: Channel, installer: Installer, version: Text, commit: Text): Result<Metadata, Error> {
    if !ValidPair(channel, installer) then Err(InvalidChannelInstallerPair)
    else if !env.isVersion(version) then Err(InvalidVersion)
    else if !ValidCommit(commit) then Err(InvalidSourceCommit(commit))
    else
      var m := Metadata(SCHEMA_VERSION, channel, installer, version, PackageIdOf(channel), commit);
      match SlotFor(m)
      case Err(error) => Err(error)
      case Ok(_) => Ok(m)
  }

  // Writing a slot in place

  method BlankSlot() returns (slot: array<Byte>)
    ensures fresh(slot) && slot[..] == MARKER + Fill(0, SLOT_SIZE - MARKER_SIZE)
  {
    slot := new Byte[SLOT_SIZE](_ => 0);
    var index := 0;
    while index < |MAGIC|
      invariant index <= |MAGIC|
      invariant slot[..index] == MAGIC[..index]
      invariant forall i :: index <= i < SLOT_SIZE ==> slot[i] == 0
    {
      slot[index] := MAGIC[index];
      index := index + 1;
    }
    while index < MARKER_SIZE
      invariant |MAGIC| <= index <= MARKER_SIZE
      invariant slot[..|MAGIC|] == MAGIC
      invariant forall i :: |MAGIC| <= i < index ==> slot[i] == FILLER
      invariant forall i :: index <= i < SLOT_SIZE ==> slot[i] == 0
    {
      slot[index] := FILLER;
      index := index + 1;
    }
    assert slot[..] == slot[..|MAGIC|] + Fill(FILLER, 48) + Fill(0, SLOT_SIZE - MARKER_SIZE);
  }

  method WriteText(slot: array<Byte>, offset: nat, size: nat, value: Text) returns (result: Result<(), Error>)
    requires offset + size <= slot.Length
    modifies slot
    ensures result == if Fits(value, size) then Ok(()) else Err(InvalidText(value))
    ensures slot[..] == if Fits(value, size) then old(slot[..offset]) + value + old(slot[offset + |value|..]) else old(slot[..])
  {
    if 0 in value || |value| > size {
      return Err(InvalidText(value));
    }
    forall i | 0 <= i < |value| {
      slot[offset + i] := value[i];
    }
    return Ok(());
  }

  /** Writing a text over zeros leaves it padded with zeros. */
  lemma {:induction false} WrittenField(prefix: seq<Byte>, text: Text, size: nat, rest: nat)
    requires |text| <= size
    ensures var slot := prefix + Fill(0, size + rest);
            slot[..|prefix|] + text + slot[|prefix| + |text|..] == prefix + Padded(text, size) + Fill(0, rest)
  {
  }

  method ToSlot(m: Metadata) returns (result: Result<seq<Byte>, Error>)
    ensures result == SlotFor(m)
  {
    if !ValidPair(m.channel, m.installer) {
      return Err(InvalidChannelInstallerPair);
    }
    if m.schemaVersion != SCHEMA_VERSION {
      return Err(UnsupportedSchema(m.schemaVersion));
    }
    if m.packageId != PackageIdOf(m.channel) {
      return Err(InvalidPackageId(m.packageId));
    }
    var slot := BlankSlot();
    slot[SCHEMA_OFFSET], slot[SCHEMA_OFFSET + 1] := SCHEMA_VERSION % 256, SCHEMA_VERSION / 256;
    slot[CHANNEL_OFFSET] := ChannelByte(m.channel);
    slot[INSTALLER_OFFSET] := InstallerByte(m.installer);
    ghost var header := MARKER + [1, 0, ChannelByte(m.channel), InstallerByte(m.installer)];
    assert slot[..] == header + Fill(0, SLOT_SIZE - VERSION_OFFSET);
    hide Fill;
    hide Padded;
    var written := WriteText(slot, VERSION_OFFSET, VERSION_SIZE, m.applicationVersion);
    if written.Err? {
      return Err(written.error);
    }
    WrittenField(header, m.applicationVersion, VERSION_SIZE, SLOT_SIZE - PACKAGE_OFFSET);
    ghost var fields := header + Padded(m.applicationVersion, VERSION_SIZE);
    written := WriteText(slot, PACKAGE_OFFSET, PACKAGE_SIZE, m.packageId);
    if written.Err? {
      return Err(written.error);
    }
    WrittenField(fields, m.packageId, PACKAGE_SIZE, SLOT_SIZE - COMMIT_OFFSET);
    written := WriteText(slot, COMMIT_OFFSET, COMMIT_SIZE, m.sourceCommit);
    if written.Err? {
      return Err(written.error);
    }
    WrittenField(fields + Padded(m.packageId, PACKAGE_SIZE), m.sourceCommit, COMMIT_SIZE, SLOT_SIZE - COMMIT_OFFSET - COMMIT_SIZE);
    return Ok(slot[..]);
  }

  // Reading a slot

  /** The bytes before the first zero. */
  function UpToZero(bytes: seq<Byte>): (text: Text)
    ensures |text| <= |bytes| && 0 !in text
  {
    if bytes == [] || bytes[0] == 0 then [] else [bytes[0]] + UpToZero(bytes[1..])
  }

  function ReadText(env: Environment, slot: seq<Byte>, offset: nat, size: nat): Result<Text, Error>
    requires offset + size <= |slot|
  {
    var text := UpToZero(slot[offset..offset + size]);
    if env.isUtf8(text) then Ok(text) else Err(InvalidUtf8)
  }

  predicate MarkerMatches(slot: seq<Byte>) {
    && |slot| >= MARKER_SIZE
    && slot[..|MAGIC|] == MAGIC
    && forall i :: |MAGIC| <= i < MARKER_SIZE ==> slot[i] == FILLER
  }

  function Unbranded(env: Environment): Metadata {
    Metadata(SCHEMA_VERSION, UnknownChannel, UnknownInstaller, env.packageVersion, [], [])
  }

  function FromSlot(env: Environment, slot: seq<Byte>): Result<Metadata, Error> {
    if |slot| != SLOT_SIZE then Err(InvalidSlotSize(|slot|))
    else if !MarkerMatches(slot) then Err(InvalidMagic)
    else
      var schema: nat := (slot[SCHEMA_OFFSET] as nat) + 256 * (slot[SCHEMA_OFFSET + 1] as nat);
      if schema == 0 then Ok(Unbranded(env))
      else if schema != SCHEMA_VERSION then Err(UnsupportedSchema(schema))
      else
        match (ChannelOf(slot[CHANNEL_OFFSET]), InstallerOf(slot[INSTALLER_OFFSET]))
        case (Err(error), _) => Err(error)
        case (_, Err(error)) => Err(error)
        case (Ok(channel), Ok(installer)) =>
          if !ValidPair(channel, installer) then Err(InvalidChannelInstallerPair)
          else
            match ReadText(env, slot, PACKAGE_OFFSET, PACKAGE_SIZE)
            case Err(error) => Err(error)
            case Ok(package) =>
              if package != PackageIdOf(channel) then Err(InvalidPackageId(package))
              else
                match ReadText(env, slot, VERSION_OFFSET, VERSION_SIZE)
                case Err(error) => Err(error)
                case Ok(version) =>
                  if !env.isVersion(version) then Err(InvalidVersion)
                  else
                    match ReadText(env, slot, COMMIT_OFFSET, COMMIT_SIZE)
                    case Err(error) => Err(error)
                    case Ok(commit) =>
                      if !ValidCommit(commit) then Err(InvalidSourceCommit(commit))
                      else Ok(Metadata(schema, channel, installer, version, package, commit))
  }

  lemma {:induction false} UpToZeroOfPadded(text: Text, size: nat)
    requires Fits(text, size)
    ensures UpToZero(Padded(text, size)) == text
  {
    var bytes := Padded(text, size);
    if text != [] {
      assert bytes[0] == text[0];
      assert bytes[1..] == Padded(text[1..], size - 1);
      UpToZeroOfPadded(text[1..], size - 1);
    }
  }

  lemma {:induction false} LayoutFields(m: Metadata)
    requires TextsFit(m)
    ensures var slot := Layout(m);
            && MarkerMatches(slot) && slot[..MARKER_SIZE] == MARKER
            && slot[SCHEMA_OFFSET] == 1 && slot[SCHEMA_OFFSET + 1] == 0
            && slot[CHANNEL_OFFSET] == ChannelByte(m.channel) && slot[INSTALLER_OFFSET] == InstallerByte(m.installer)
            && slot[VERSION_OFFSET..VERSION_OFFSET + VERSION_SIZE] == Padded(m.applicationVersion, VERSION_SIZE)
            && slot[PACKAGE_OFFSET..PACKAGE_OFFSET + PACKAGE_SIZE] == Padded(m.packageId, PACKAGE_SIZE)
            && slot[COMMIT_OFFSET..COMMIT_OFFSET + COMMIT_SIZE] == Padded(m.sourceCommit, COMMIT_SIZE)
            && slot[COMMIT_OFFSET + COMMIT_SIZE..] == Fill(0, SLOT_SIZE - COMMIT_OFFSET - COMMIT_SIZE)
  {
    hide Padded;
    var slot := Layout(m);
    assert slot[..MARKER_SIZE] == MARKER;
    assert slot[..|MAGIC|] == MAGIC;
    assert forall i :: |MAGIC| <= i < MARKER_SIZE ==> slot[i] == MARKER[i];
  }

  /** The texts are strings. */
  predicate TextsAreStrings(env: Environment, m: Metadata) {
    env.isUtf8(m.applicationVersion) && env.isUtf8(m.packageId) && env.isUtf8(m.sourceCommit)
  }

  /** A slot reads back as the metadata it was written from exactly when `new` would accept the version and commit. */
  lemma {:induction false} SlotReadsBack(env: Environment, m: Metadata)
    requires SlotFor(m).Ok? && TextsAreStrings(env, m)
    ensures FromSlot(env, SlotFor(m).value) == Ok(m) <==> env.isVersion(m.applicationVersion) && ValidCommit(m.sourceCommit)
  {
    LayoutFields(m);
    UpToZeroOfPadded(m.applicationVersion, VERSION_SIZE);
    UpToZeroOfPadded(m.packageId, PACKAGE_SIZE);
    UpToZeroOfPadded(m.sourceCommit, COMMIT_SIZE);
    hide Layout;
    hide Padded;
    hide MarkerMatches;
    hide UpToZero;
    hide ValidCommit;
  }

  /** A commit that is no number is written, and refused when it is read. */
  lemma {:induction false} OddCommitIsWritten(env: Environment, version: Text)
    requires Fits(version, VERSION_SIZE) && env.isVersion(version) && env.isUtf8(version)
    requires env.isUtf8([]) && env.isUtf8([0x7a])
    ensures var m := Metadata(SCHEMA_VERSION, UnknownChannel, UnknownInstaller, version, [], [0x7a]);
            && SlotFor(m).Ok?
            && FromSlot(env, SlotFor(m).value) == Err(InvalidSourceCommit([0x7a]))
            && New(env, UnknownChannel, UnknownInstaller, version, [0x7a]) == Err(InvalidSourceCommit([0x7a]))
  {
    var m := Metadata(SCHEMA_VERSION, UnknownChannel, UnknownInstaller, version, [], [0x7a]);
    assert SlotFor(m).Ok?;
    LayoutFields(m);
    UpToZeroOfPadded(m.applicationVersion, VERSION_SIZE);
    UpToZeroOfPadded(m.packageId, PACKAGE_SIZE);
    UpToZeroOfPadded(m.sourceCommit, COMMIT_SIZE);
    assert 0x7a in m.sourceCommit && !IsHexDigit(0x7a);
    hide Layout;
    hide Padded;
    hide MarkerMatches;
    hide UpToZero;
  }

  /** Metadata that `new` builds can be written, and reads back as itself. */
  lemma {:induction false} NewRoundTrips(env: Environment, channel: Channel, installer: Installer, version: Text, commit: Text)
    requires New(env, channel, installer, version, commit).Ok?
    requires TextsAreStrings(env, New(env, channel, installer, version, commit).value)
    ensures var m := New(env, channel, installer, version, commit).value;
            SlotFor(m).Ok? && FromSlot(env, SlotFor(m).value) == Ok(m)
  {
    hide FromSlot;
    hide Layout;
    SlotReadsBack(env, New(env, channel, installer, version, commit).value);
  }

  /** What reading has checked. */
  lemma {:induction false} ReadMetadataIsChecked(env: Environment, slot: seq<Byte>)
    requires FromSlot(env, slot).Ok? && slot[SCHEMA_OFFSET..SCHEMA_OFFSET + 2] != [0, 0]
    ensures var m := FromSlot(env, slot).value;
            && m.schemaVersion == SCHEMA_VERSION && ValidPair(m.channel, m.installer)
            && m.packageId == PackageIdOf(m.channel) && TextsFit(m)
            && TextsAreStrings(env, m) && env.isVersion(m.applicationVersion) && ValidCommit(m.sourceCommit)
  {
    hide MarkerMatches;
    hide ChannelOf;
    hide InstallerOf;
    hide ValidPair;
    hide PackageIdOf;
    hide ValidCommit;
  }

  /** Whatever can be read from a branded slot can be written again, and then reads the same. */
  lemma {:induction false} ReadMetadataCanBeWritten(env: Environment, slot: seq<Byte>)
    requires FromSlot(env, slot).Ok? && slot[SCHEMA_OFFSET..SCHEMA_OFFSET + 2] != [0, 0]
    ensures var m := FromSlot(env, slot).value;
            SlotFor(m).Ok? && FromSlot(env, SlotFor(m).value) == Ok(m)
  {
    hide FromSlot;
    hide ValidPair;
    hide PackageIdOf;
    hide ValidCommit;
    hide Layout;
    ReadMetadataIsChecked(env, slot);
    SlotReadsBack(env, FromSlot(env, slot).value);
  }

  // Finding and injecting

  predicate MarkerAt(executable: seq<Byte>, offset: nat) {
    offset + SLOT_SIZE <= |executable| && MarkerMatches(executable[offset..offset + SLOT_SIZE])
  }

  /** The offsets of the windows that begin with a marker, in order, from `offset` on. */
  function MarkersFrom(executable: seq<Byte>, offset: nat): (offsets: seq<nat>)
    decreases |executable| - offset
  {
    if offset + SLOT_SIZE > |executable| then []
    else (if MarkerAt(executable, offset) then [offset] else []) + MarkersFrom(executable, offset + 1)
  }

  function FindSlot(executable: seq<Byte>): Result<nat, Error> {
    var offsets := MarkersFrom(executable, 0);
    if offsets == [] then Err(SlotNotFound)
    else if |offsets| > 1 then Err(MultipleSlots)
    else Ok(offsets[0])
  }

  ghost predicate OnlyMarker(executable: seq<Byte>, offset: nat) {
    MarkerAt(executable, offset) && forall p: nat :: MarkerAt(executable, p) ==> p == offset
  }

  lemma {:induction false} MarkersFromMeaning(executable: seq<Byte>, offset: nat)
    ensures forall p :: p in MarkersFrom(executable, offset) <==> offset <= p && MarkerAt(executable, p)
    ensures forall i :: 0 < i < |MarkersFrom(executable, offset)| ==>
              MarkersFrom(executable, offset)[0] < MarkersFrom(executable, offset)[i]
    decreases |executable| - offset
  {
    if offset + SLOT_SIZE <= |executable| {
      MarkersFromMeaning(executable, offset + 1);
      hide MarkerMatches;
      var rest := MarkersFrom(executable, offset + 1);
      assert forall i :: 0 <= i < |rest| ==> rest[i] in rest;
    }
  }

  /** The slot is found exactly when one window begins with a marker. */
  lemma {:induction false} FindSlotMeaning(executable: seq<Byte>)
    ensures forall offset: nat :: FindSlot(executable) == Ok(offset) <==> OnlyMarker(executable, offset)
    ensures FindSlot(executable) == Err(SlotNotFound) <==> forall p: nat :: !MarkerAt(executable, p)
    ensures FindSlot(executable).Err? ==> FindSlot(executable).error in {SlotNotFound, MultipleSlots}
  {
    MarkersFromMeaning(executable, 0);
    hide MarkerAt;
    var offsets := MarkersFrom(executable, 0);
    if |offsets| > 0 {
      assert offsets[0] in offsets;
    }
    if |offsets| > 1 {
      assert offsets[1] in offsets;
    }
    forall offset: nat | OnlyMarker(executable, offset)
      ensures FindSlot(executable) == Ok(offset)
    {
      assert offset in offsets;
    }
  }

  function Injected(executable: seq<Byte>, m: Metadata): Result<seq<Byte>, Error> {
    match FindSlot(executable)
    case Err(error) => Err(error)
    case Ok(offset) =>
      FindSlotMeaning(executable);
      assert MarkerAt(executable, offset);
      match SlotFor(m)
      case Err(error) => Err(error)
      case Ok(slot) => Ok(executable[..offset] + slot + executable[offset + SLOT_SIZE..])
  }

  method InjectDistributionMetadata(executable: seq<Byte>, m: Metadata) returns (result: Result<seq<Byte>, Error>)
    ensures result == Injected(executable, m)
  {
    var found := FindSlot(executable);
    if found.Err? {
      return Err(found.error);
    }
    var offset := found.value;
    FindSlotMeaning(executable);
    assert MarkerAt(executable, offset);
    var slot := ToSlot(m);
    if slot.Err? {
      return Err(slot.error);
    }
    hide FindSlot;
    hide SlotFor;
    hide MarkerMatches;
    var output := new Byte[|executable|](i requires 0 <= i < |executable| => executable[i]);
    forall i | 0 <= i < SLOT_SIZE {
      output[offset + i] := slot.value[i];
    }
    assert output[..] == executable[..offset] + slot.value + executable[offset + SLOT_SIZE..];
    return Ok(output[..]);
  }

  // Injection laws

  /** Marker byte `k` of the window at `p`. */
  lemma {:induction false} MarkerByte(executable: seq<Byte>, p: nat, k: nat)
    requires MarkerAt(executable, p) && k < MARKER_SIZE
    ensures executable[p + k] == MARKER[k]
  {
    var window := executable[p..p + SLOT_SIZE];
    assert window[k] == executable[p + k];
    if k < |MAGIC| {
      assert window[..|MAGIC|][k] == MAGIC[k];
    }
  }

  lemma {:induction false} MarkerBytes(executable: seq<Byte>, p: nat)
    requires MarkerAt(executable, p)
    ensures executable[p..p + MARKER_SIZE] == MARKER
  {
    forall k | 0 <= k < MARKER_SIZE
      ensures executable[p..p + MARKER_SIZE][k] == MARKER[k]
    {
      MarkerByte(executable, p, k);
    }
  }

  lemma {:induction false} MarkerFromBytes(executable: seq<Byte>, p: nat)
    requires p + SLOT_SIZE <= |executable|
    requires executable[p..p + MARKER_SIZE] == MARKER
    ensures MarkerAt(executable, p)
  {
    var window := executable[p..p + SLOT_SIZE];
    assert window[..MARKER_SIZE] == MARKER;
    assert window[..|MAGIC|] == MARKER[..|MAGIC|] == MAGIC;
    assert forall i :: |MAGIC| <= i < MARKER_SIZE ==> window[i] == MARKER[i];
  }

  /** Bytes of a slot: its marker, no filler in the package id, and zeros after the commit. */
  lemma {:induction false} SlotBytes(m: Metadata, i: nat)
    requires SlotFor(m).Ok? && i < SLOT_SIZE
    ensures i < MARKER_SIZE ==> Layout(m)[i] == MARKER[i]
    ensures PACKAGE_OFFSET <= i < COMMIT_OFFSET || i >= COMMIT_OFFSET + COMMIT_SIZE ==> Layout(m)[i] != FILLER
    ensures i >= COMMIT_OFFSET + COMMIT_SIZE ==> Layout(m)[i] == 0
  {
    var slot := Layout(m);
    LayoutFields(m);
    assert m.packageId == PackageIdOf(m.channel);
    hide SlotFor;
    hide ChannelByte;
    hide InstallerByte;
    hide PackageIdOf;
    hide Layout;
    hide MarkerMatches;
    if i < MARKER_SIZE {
      assert slot[i] == slot[..MARKER_SIZE][i];
    } else if PACKAGE_OFFSET <= i < COMMIT_OFFSET {
      assert slot[i] == slot[PACKAGE_OFFSET..PACKAGE_OFFSET + PACKAGE_SIZE][i - PACKAGE_OFFSET];
    } else if i >= COMMIT_OFFSET + COMMIT_SIZE {
      assert slot[i] == slot[COMMIT_OFFSET + COMMIT_SIZE..][i - COMMIT_OFFSET - COMMIT_SIZE];
    }
  }

  lemma {:induction false} MagicStartsOnce(k: nat)
    requires k < MARKER_SIZE
    ensures MARKER[k] == MAGIC[0] <==> k == 0
  {
  }

  /** A marker moved by `d` over a slot meets a byte that differs. The magic's first letter occurs only once in a
      marker; a run of 48 filler bytes is longer than the version and the commit fields. */
  lemma {:induction false} ShiftedMarkerDiffers(m: Metadata, d: int) returns (k: nat)
    requires SlotFor(m).Ok? && d != 0 && d + MARKER_SIZE > 0 && d < SLOT_SIZE
    ensures k < MARKER_SIZE && 0 <= d + k < SLOT_SIZE && Layout(m)[d + k] != MARKER[k]
  {
    if d < MARKER_SIZE {
      k := if d < 0 then -d else 0;
      MagicStartsOnce(k);
      MagicStartsOnce(d + k);
    } else if d >= COMMIT_OFFSET + COMMIT_SIZE {
      k := 0;
    } else {
      k := 16 + (if d + 16 <= PACKAGE_OFFSET then PACKAGE_OFFSET - d - 16
                 else if COMMIT_OFFSET <= d + 16 < COMMIT_OFFSET + COMMIT_SIZE then COMMIT_OFFSET + COMMIT_SIZE - d - 16
                 else 0);
      assert MARKER[k] == FILLER;
    }
    SlotBytes(m, d + k);
  }

  /** Injection creates no second marker at any offset, for any metadata that can be written. */
  lemma {:induction false} NoSecondMarker(executable: seq<Byte>, m: Metadata, output: seq<Byte>, offset: nat, p: nat)
    requires OnlyMarker(executable, offset) && SlotFor(m).Ok?
    requires output == executable[..offset] + Layout(m) + executable[offset + SLOT_SIZE..]
    requires MarkerAt(output, p)
    ensures p == offset
  {
    assert TextsFit(m);
    hide Layout;
    hide SlotFor;
    hide MarkerMatches;
    if p + MARKER_SIZE <= offset || offset + SLOT_SIZE <= p {
      MarkerBytes(output, p);
      assert executable[p..p + MARKER_SIZE] == output[p..p + MARKER_SIZE];
      MarkerFromBytes(executable, p);
    } else if p != offset {
      var k := ShiftedMarkerDiffers(m, p - offset);
      assert output[p + k] == Layout(m)[p - offset + k];
      MarkerByte(output, p, k);
      assert false;
    }
  }

  /** The slot's own marker is where it was. */
  lemma {:induction false} MarkerStays(executable: seq<Byte>, m: Metadata, output: seq<Byte>, offset: nat)
    requires SlotFor(m).Ok? && offset + SLOT_SIZE <= |executable|
    requires output == executable[..offset] + Layout(m) + executable[offset + SLOT_SIZE..]
    ensures output[offset..offset + SLOT_SIZE] == Layout(m) && MarkerAt(output, offset)
  {
    LayoutFields(m);
    hide Layout;
    hide MarkerMatches;
    assert output[offset..offset + SLOT_SIZE] == Layout(m);
  }

  /** Injection into an executable with exactly one slot changes the 1024 bytes of the slot and nothing else, and
      leaves exactly one slot, at the same offset, holding the new metadata. */
  lemma {:induction false} InjectionWritesTheSlot(executable: seq<Byte>, m: Metadata, offset: nat)
    requires FindSlot(executable) == Ok(offset) && SlotFor(m).Ok?
    ensures Injected(executable, m).Ok?
    ensures var output := Injected(executable, m).value;
            && offset + SLOT_SIZE <= |output| == |executable|
            && output[..offset] == executable[..offset]
            && output[offset + SLOT_SIZE..] == executable[offset + SLOT_SIZE..]
            && Ok(output[offset..offset + SLOT_SIZE]) == SlotFor(m)
            && FindSlot(output) == Ok(offset)
  {
    FindSlotMeaning(executable);
    assert OnlyMarker(executable, offset);
    var output := executable[..offset] + Layout(m) + executable[offset + SLOT_SIZE..];
    MarkerStays(executable, m, output, offset);
    forall p: nat | MarkerAt(output, p)
      ensures p == offset
    {
      NoSecondMarker(executable, m, output, offset, p);
    }
    FindSlotMeaning(output);
    hide FindSlot;
    hide Layout;
    hide MarkerAt;
    hide MarkerMatches;
    assert OnlyMarker(output, offset);
    assert SlotFor(m) == Ok(Layout(m));
  }

  /** Injecting and then reading the slot gives the metadata back. */
  lemma {:induction false} InjectedMetadataReadsBack(env: Environment, executable: seq<Byte>, offset: nat,
                                                     channel: Channel, installer: Installer, version: Text, commit: Text)
    requires FindSlot(executable) == Ok(offset)
    requires New(env, channel, installer, version, commit).Ok?
    requires TextsAreStrings(env, New(env, channel, installer, version, commit).value)
    ensures var m := New(env, channel, installer, version, commit).value;
            && Injected(executable, m).Ok?
            && offset + SLOT_SIZE <= |Injected(executable, m).value|
            && FromSlot(env, Injected(executable, m).value[offset..offset + SLOT_SIZE]) == Ok(m)
  {
    var m := New(env, channel, installer, version, commit).value;
    NewRoundTrips(env, channel, installer, version, commit);
    InjectionWritesTheSlot(executable, m, offset);
    hide FromSlot;
    hide Injected;
    hide SlotFor;
    hide FindSlot;
  }

  /** A later injection replaces an earlier one. */
  lemma {:induction false} LastInjectionWins(executable: seq<Byte>, first: Metadata, second: Metadata)
    requires SlotFor(first).Ok? && FindSlot(executable).Ok?
    ensures Injected(executable, first).Ok?
    ensures Injected(Injected(executable, first).value, second) == Injected(executable, second)
  {
    var offset := FindSlot(executable).value;
    InjectionWritesTheSlot(executable, first, offset);
    hide FindSlot;
    hide SlotFor;
  }
}
