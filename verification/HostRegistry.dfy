/**
 The registry of fleet hosts and its file: a printer that writes hosts as TOML, one that appends a single host, and the
 loader. A registry survives being written and read back exactly when no string in it holds a control character.
 */
module HostRegistry {
  import opened Common
  import opened Toml

  datatype Host = Host(
    ip: string, label_: string, htype: string, displayName: string, groups: string, vmid: int, managed: bool,
    allIps: seq<string>, hostname: string, serviceTag: string, identitySource: string)

  // ---------- loading ----------

  /** A text field: the default when the key is missing. */
  function TextOr(t: Table, key: string, default_: string): string
  {
    if key in t && t[key].Str? then t[key].text else default_
  }

  /** The first of several keys that has a text. */
  function FirstText(t: Table, keys: seq<string>): string
  {
    if keys == [] then ""
    else if TextOr(t, keys[0], "") != "" then TextOr(t, keys[0], "")
    else FirstText(t, keys[1..])
  }

  /** The parts between commas that are not empty. */
  function SplitCommas(s: string, part: string): seq<string>
    decreases |s|
  {
    var done := if part == "" then [] else [part];
    if s == "" then done
    else if s[0] == ',' then done + SplitCommas(s[1..], "")
    else SplitCommas(s[1..], part + [s[0]])
  }

  function AllIpsOf(t: Table): seq<string>
  {
    if "all_ips" !in t then []
    else
      match t["all_ips"]
      case Arr(items) => items
      case Str(text) => SplitCommas(text, "")
      case _ => []
  }

  function ManagedOf(t: Table): bool
  {
    if "managed" !in t then true
    else
      match t["managed"]
      case Bool(b) => b
      case Str(text) => Lower(text) != "false" && Lower(text) != "0" && Lower(text) != "no"
      case Int(n) => n != 0
      case Arr(items) => items != []
  }

  function VmidOf(t: Table): int
  {
    if "vmid" !in t then 0
    else
      match t["vmid"]
      case Int(n) => n
      case Bool(b) => if b then 1 else 0
      case Str(text) => (match ReadInt(text) case Got(n, rest) => if rest == "" then n else 0 case Bad => 0)
      case Arr(_) => 0
  }

  /** A host from one `[[host]]` table. */
  function FromTable(t: Table): Host
  {
    Host(TextOr(t, "ip", ""), TextOr(t, "label", ""), TextOr(t, "type", "linux"),
         FirstText(t, ["display_name", "name"]), TextOr(t, "groups", ""), VmidOf(t), ManagedOf(t), AllIpsOf(t),
         FirstText(t, ["hostname", "fqdn", "dns_name"]), TextOr(t, "service_tag", ""), TextOr(t, "identity_source", ""))
  }

  function FromTables(ts: seq<Table>): (hs: seq<Host>)
    ensures |hs| == |ts|
    ensures forall i :: 0 <= i < |ts| ==> hs[i] == FromTable(ts[i])
  {
    seq(|ts|, i requires 0 <= i < |ts| => FromTable(ts[i]))
  }

  /** The hosts of a registry file; a file that is not readable as TOML has none. */
  function LoadHosts(text: string): seq<Host>
  {
    match ReadDoc(text, [])
    case Ok(tables) => FromTables(tables)
    case Err => []
  }

  // ---------- printing ----------

  /** A line of a host entry, or its absence: fields that are empty, zero or managed are left out. */
  datatype Slot = Present(key: string, value: Value) | Absent(key: string)

  function TextSlot(key: string, text: string): Slot
  {
    if text == "" then Absent(key) else Present(key, Str(text))
  }

  function VmidSlot(h: Host): Slot
  {
    if h.vmid != 0 then Present("vmid", Int(h.vmid)) else Absent("vmid")
  }

  function ManagedSlot(h: Host): Slot
  {
    if !h.managed then Present("managed", Bool(false)) else Absent("managed")
  }

  function AddressSlot(h: Host): Slot
  {
    if h.allIps != [] then Present("all_ips", Arr(h.allIps)) else Absent("all_ips")
  }

  function Slots(h: Host): (s: seq<Slot>)
    ensures |s| == 11
  {
    [ Present("ip", Str(h.ip)),
      Present("label", Str(h.label_)),
      Present("type", Str(h.htype)),
      TextSlot("display_name", h.displayName),
      TextSlot("groups", h.groups),
      VmidSlot(h),
      ManagedSlot(h),
      AddressSlot(h),
      TextSlot("hostname", h.hostname),
      TextSlot("service_tag", h.serviceTag),
      TextSlot("identity_source", h.identitySource) ]
  }

  function PrintSlot(s: Slot): string
  {
    if s.Present? then PrintPair(s.key, s.value) else ""
  }

  function PrintSlots(slots: seq<Slot>): string
  {
    if slots == [] then "" else PrintSlot(slots[0]) + PrintSlots(slots[1..])
  }

  /** The entry of one host. */
  function Block(h: Host): string
  {
    HOST_HEADER + ("\n" + (PrintSlots(Slots(h)) + "\n"))
  }

  function Blocks(hs: seq<Host>): string
  {
    if hs == [] then "" else Blocks(hs[..|hs| - 1]) + Block(hs[|hs| - 1])
  }

  const TITLE: string := " FREQ Fleet Registry"
  const WARNING: string := " Managed by freq " + "\U{2014}" + " do not edit while" + " freq is running"

  /** What a rewritten file and a new file start with. */
  const FULL_HEADER: string := CommentThen(TITLE, CommentThen(WARNING, "\n"))
  const SHORT_HEADER: string := CommentThen(TITLE, "\n")

  /** `start` with the lines of some slots behind it. */
  ghost function Lines(start: string, slots: seq<Slot>): string
  {
    start + PrintSlots(slots)
  }

  lemma {:induction false} PrintSlotsSnoc(slots: seq<Slot>, s: Slot)
    ensures PrintSlots(slots + [s]) == PrintSlots(slots) + PrintSlot(s)
    decreases |slots|
  {
    if slots == [] {
      assert slots + [s] == [s] && PrintSlots([s][1..]) == "";
      assert PrintSlot(s) + "" == "" + PrintSlot(s);
    } else {
      assert (slots + [s])[1..] == slots[1..] + [s];
      PrintSlotsSnoc(slots[1..], s);
      Associates(PrintSlot(slots[0]), PrintSlots(slots[1..]), PrintSlot(s));
    }
  }

  lemma OneLine(start: string, slots: seq<Slot>, k: nat)
    requires k < |slots|
    ensures Lines(start, slots[..k]) + PrintSlot(slots[k]) == Lines(start, slots[..k + 1])
  {
    assert slots[..k + 1] == slots[..k] + [slots[k]];
    PrintSlotsSnoc(slots[..k], slots[k]);
    Associates(start, PrintSlots(slots[..k]), PrintSlot(slots[k]));
  }

  lemma NoLines(start: string, slots: seq<Slot>)
    ensures Lines(start, slots[..0]) == start
  {
    assert slots[..0] == [];
  }

  lemma AllLines(start: string, slots: seq<Slot>)
    ensures Lines(start, slots[..|slots|]) == start + PrintSlots(slots)
  {
    assert slots[..|slots|] == slots;
  }

  lemma BlockParts(header: string, lines: string)
    ensures header + "\n" + lines + "\n" == header + ("\n" + (lines + "\n"))
  {
    Associates(header, "\n", lines);
    Associates(header, "\n" + lines, "\n");
    Associates("\n", lines, "\n");
  }

  // ---------- the writer of the whole file ----------

  method AddLine(start: string, key: string, value: Value) returns (text: string)
    ensures text == start + PrintSlot(Present(key, value))
  {
    text := start + PrintPair(key, value);
  }

  /** A line for a text that is left out when it is empty. */
  method AddText(start: string, key: string, value: string) returns (text: string)
    ensures text == start + PrintSlot(TextSlot(key, value))
  {
    text := AddValue(start, value != "", key, Str(value));
  }

  /** A line for a value that is left out unless `wanted`. */
  method AddValue(start: string, wanted: bool, key: string, value: Value) returns (text: string)
    ensures text == start + PrintSlot(if wanted then Present(key, value) else Absent(key))
  {
    text := start + "";
    if wanted {
      text := start + PrintPair(key, value);
    }
  }

  /** Address, label and type: every entry has them. */
  method RequiredLines(start: string, h: Host, ghost slots: seq<Slot>) returns (text: string)
    requires |slots| == 11 && slots[0] == Present("ip", Str(h.ip)) && slots[1] == Present("label", Str(h.label_))
    requires slots[2] == Present("type", Str(h.htype))
    ensures text == Lines(start, slots[..3])
  {
    NoLines(start, slots);
    text := AddLine(start, "ip", Str(h.ip));
    OneLine(start, slots, 0);
    text := AddLine(text, "label", Str(h.label_));
    OneLine(start, slots, 1);
    text := AddLine(text, "type", Str(h.htype));
    OneLine(start, slots, 2);
  }

  method DescriptionLines(before: string, h: Host, ghost start: string, ghost slots: seq<Slot>) returns (text: string)
    requires |slots| == 11 && slots[3] == TextSlot("display_name", h.displayName)
    requires slots[4] == TextSlot("groups", h.groups)
    requires before == Lines(start, slots[..3])
    ensures text == Lines(start, slots[..5])
  {
    text := AddText(before, "display_name", h.displayName);
    OneLine(start, slots, 3);
    text := AddText(text, "groups", h.groups);
    OneLine(start, slots, 4);
  }

  method ManagementLines(before: string, h: Host, ghost start: string, ghost slots: seq<Slot>) returns (text: string)
    requires |slots| == 11 && slots[5] == VmidSlot(h) && slots[6] == ManagedSlot(h) && slots[7] == AddressSlot(h)
    requires before == Lines(start, slots[..5])
    ensures text == Lines(start, slots[..8])
  {
    text := AddValue(before, h.vmid != 0, "vmid", Int(h.vmid));
    OneLine(start, slots, 5);
    text := AddValue(text, !h.managed, "managed", Bool(false));
    OneLine(start, slots, 6);
    text := AddValue(text, h.allIps != [], "all_ips", Arr(h.allIps));
    OneLine(start, slots, 7);
  }

  method IdentityLines(before: string, h: Host, ghost start: string, ghost slots: seq<Slot>) returns (text: string)
    requires |slots| == 11 && slots[8] == TextSlot("hostname", h.hostname)
    requires slots[9] == TextSlot("service_tag", h.serviceTag)
    requires slots[10] == TextSlot("identity_source", h.identitySource)
    requires before == Lines(start, slots[..8])
    ensures text == Lines(start, slots[..11])
  {
    text := AddText(before, "hostname", h.hostname);
    OneLine(start, slots, 8);
    text := AddText(text, "service_tag", h.serviceTag);
    OneLine(start, slots, 9);
    text := AddText(text, "identity_source", h.identitySource);
    OneLine(start, slots, 10);
  }

  /** The lines of one host, in the order in which they are written. */
  method HostEntry(h: Host) returns (text: string)
    ensures text == Block(h)
  {
    ghost var slots := Slots(h);
    var start := HOST_HEADER + "\n";
    text := RequiredLines(start, h, slots);
    text := DescriptionLines(text, h, start, slots);
    text := ManagementLines(text, h, start, slots);
    text := IdentityLines(text, h, start, slots);
    AllLines(start, slots);
    BlockParts(HOST_HEADER, PrintSlots(slots));
    text := text + "\n";
  }

  lemma OneMoreBlock(header: string, hosts: seq<Host>, i: nat)
    requires i < |hosts|
    ensures header + Blocks(hosts[..i]) + Block(hosts[i]) == header + Blocks(hosts[..i + 1])
  {
    assert hosts[..i + 1][..i] == hosts[..i];
    Associates(header, Blocks(hosts[..i]), Block(hosts[i]));
  }

  lemma NoBlocks(header: string, hosts: seq<Host>)
    ensures header + Blocks(hosts[..0]) == header
  {
    assert hosts[..0] == [];
  }

  /** Rewrite the file with all hosts. */
  method SaveHosts(hosts: seq<Host>) returns (file: string)
    ensures file == FULL_HEADER + Blocks(hosts)
  {
    file := SaveBehind(FULL_HEADER, hosts);
  }

  method SaveBehind(header: string, hosts: seq<Host>) returns (file: string)
    ensures file == header + Blocks(hosts)
  {
    file := header;
    NoBlocks(header, hosts);
    for i := 0 to |hosts|
      invariant file == header + Blocks(hosts[..i])
    {
      var entry := HostEntry(hosts[i]);
      OneMoreBlock(header, hosts, i);
      file := file + entry;
    }
    assert hosts[..|hosts|] == hosts;
  }

  // ---------- the appender: its own list of lines ----------

  datatype File = Missing | Contents(text: string)

  /** The text that a list of lines makes. */
  function Flat(lines: seq<string>): string
  {
    if lines == [] then "" else Flat(lines[..|lines| - 1]) + lines[|lines| - 1]
  }

  lemma FlatSnoc(lines: seq<string>, line: string)
    ensures Flat(lines + [line]) == Flat(lines) + line
  {
    assert (lines + [line])[..|lines|] == lines;
  }

  /** A line for the slot that comes next. */
  lemma NextLine(lines: seq<string>, line: string, start: string, slots: seq<Slot>, k: nat)
    requires k < |slots| && Flat(lines) == Lines(start, slots[..k]) && line == PrintSlot(slots[k])
    ensures Flat(lines + [line]) == Lines(start, slots[..k + 1])
  {
    FlatSnoc(lines, line);
    OneLine(start, slots, k);
  }

  /** No line, if the slot that comes next is absent. */
  lemma SkippedLine(lines: seq<string>, start: string, slots: seq<Slot>, k: nat)
    requires k < |slots| && Flat(lines) == Lines(start, slots[..k]) && slots[k].Absent?
    ensures Flat(lines) == Lines(start, slots[..k + 1])
  {
    OneLine(start, slots, k);
    assert Flat(lines) + "" == Flat(lines);
  }

  method AppendRequired(before: seq<string>, h: Host, ghost start: string, ghost slots: seq<Slot>)
    returns (lines: seq<string>)
    requires |slots| == 11 && slots[0] == Present("ip", Str(h.ip)) && slots[1] == Present("label", Str(h.label_))
    requires slots[2] == Present("type", Str(h.htype))
    requires Flat(before) == Lines(start, slots[..0])
    ensures Flat(lines) == Lines(start, slots[..3])
  {
    NextLine(before, PrintPair("ip", Str(h.ip)), start, slots, 0);
    lines := before + [PrintPair("ip", Str(h.ip))];
    NextLine(lines, PrintPair("label", Str(h.label_)), start, slots, 1);
    lines := lines + [PrintPair("label", Str(h.label_))];
    NextLine(lines, PrintPair("type", Str(h.htype)), start, slots, 2);
    lines := lines + [PrintPair("type", Str(h.htype))];
  }

  /** One more line unless the text is empty. */
  method AppendText(before: seq<string>, key: string, value: string, ghost start: string, ghost slots: seq<Slot>,
      ghost k: nat)
    returns (lines: seq<string>)
    requires k < |slots| && slots[k] == TextSlot(key, value) && Flat(before) == Lines(start, slots[..k])
    ensures Flat(lines) == Lines(start, slots[..k + 1])
  {
    lines := AppendValue(before, value != "", key, Str(value), start, slots, k);
  }

  /** One more line if the value is wanted. */
  method AppendValue(before: seq<string>, wanted: bool, key: string, value: Value,
                     ghost start: string, ghost slots: seq<Slot>, ghost k: nat)
    returns (lines: seq<string>)
    requires k < |slots| && slots[k] == (if wanted then Present(key, value) else Absent(key))
    requires Flat(before) == Lines(start, slots[..k])
    ensures Flat(lines) == Lines(start, slots[..k + 1])
  {
    lines := before;
    if wanted {
      NextLine(lines, PrintPair(key, value), start, slots, k);
      lines := lines + [PrintPair(key, value)];
    } else {
      SkippedLine(lines, start, slots, k);
    }
  }

  method AppendManagement(before: seq<string>, h: Host, ghost start: string, ghost slots: seq<Slot>)
    returns (lines: seq<string>)
    requires |slots| == 11 && slots[5] == VmidSlot(h) && slots[6] == ManagedSlot(h) && slots[7] == AddressSlot(h)
    requires Flat(before) == Lines(start, slots[..5])
    ensures Flat(lines) == Lines(start, slots[..8])
  {
    lines := AppendValue(before, h.vmid != 0, "vmid", Int(h.vmid), start, slots, 5);
    lines := AppendValue(lines, !h.managed, "managed", Bool(false), start, slots, 6);
    lines := AppendValue(lines, h.allIps != [], "all_ips", Arr(h.allIps), start, slots, 7);
  }

  /** The lines of an appended entry behind those there are. */
  method AppendEntry(before: seq<string>, h: Host) returns (lines: seq<string>)
    ensures Flat(lines) == Flat(before) + Block(h)
  {
    ghost var slots, start := Slots(h), Flat(before) + (HOST_HEADER + "\n");
    FlatSnoc(before, HOST_HEADER + "\n");
    lines := before + [HOST_HEADER + "\n"];
    lines := AppendSlots(lines, h, start, slots);
    FlatSnoc(lines, "\n");
    EntryBehind(Flat(before), PrintSlots(slots));
    lines := lines + ["\n"];
  }

  method AppendSlots(before: seq<string>, h: Host, ghost start: string, ghost slots: seq<Slot>)
    returns (lines: seq<string>)
    requires slots == Slots(h) && Flat(before) == start
    ensures Flat(lines) == start + PrintSlots(slots)
  {
    NoLines(start, slots);
    lines := AppendNames(before, h, start, slots);
    lines := AppendRest(lines, h, start, slots);
    AllLines(start, slots);
  }

  method AppendNames(before: seq<string>, h: Host, ghost start: string, ghost slots: seq<Slot>)
    returns (lines: seq<string>)
    requires slots == Slots(h) && Flat(before) == Lines(start, slots[..0])
    ensures Flat(lines) == Lines(start, slots[..5])
  {
    lines := AppendRequired(before, h, start, slots);
    lines := AppendDescription(lines, h, start, slots);
  }

  method AppendRest(before: seq<string>, h: Host, ghost start: string, ghost slots: seq<Slot>)
    returns (lines: seq<string>)
    requires slots == Slots(h) && Flat(before) == Lines(start, slots[..5])
    ensures Flat(lines) == Lines(start, slots[..11])
  {
    lines := AppendManagement(before, h, start, slots);
    lines := AppendIdentity(lines, h, start, slots);
  }

  method AppendDescription(before: seq<string>, h: Host, ghost start: string, ghost slots: seq<Slot>)
    returns (lines: seq<string>)
    requires |slots| == 11 && slots[3] == TextSlot("display_name", h.displayName)
    requires slots[4] == TextSlot("groups", h.groups) && Flat(before) == Lines(start, slots[..3])
    ensures Flat(lines) == Lines(start, slots[..5])
  {
    lines := AppendText(before, "display_name", h.displayName, start, slots, 3);
    lines := AppendText(lines, "groups", h.groups, start, slots, 4);
  }

  method AppendIdentity(before: seq<string>, h: Host, ghost start: string, ghost slots: seq<Slot>)
    returns (lines: seq<string>)
    requires |slots| == 11 && slots[8] == TextSlot("hostname", h.hostname)
    requires slots[9] == TextSlot("service_tag", h.serviceTag)
    requires slots[10] == TextSlot("identity_source", h.identitySource)
    requires Flat(before) == Lines(start, slots[..8])
    ensures Flat(lines) == Lines(start, slots[..11])
  {
    lines := AppendText(before, "hostname", h.hostname, start, slots, 8);
    lines := AppendText(lines, "service_tag", h.serviceTag, start, slots, 9);
    lines := AppendText(lines, "identity_source", h.identitySource, start, slots, 10);
  }

  lemma EntryBehind(front: string, lines: string)
    ensures front + (HOST_HEADER + "\n") + lines + "\n" == front + (HOST_HEADER + ("\n" + (lines + "\n")))
  {
    BlockParts(HOST_HEADER, lines);
    Associates(front, HOST_HEADER + "\n", lines);
    Associates(front, HOST_HEADER + "\n" + lines, "\n");
  }

  /** Append one host; a file that does not exist is started with a shorter header. */
  method AppendHost(file: File, h: Host) returns (after: string)
    ensures after == (if file.Missing? then SHORT_HEADER else file.text) + Block(h)
  {
    var lines: seq<string> := [];
    if file.Missing? {
      lines := [SHORT_HEADER];
      FlatSnoc([], SHORT_HEADER);
      assert [] + [SHORT_HEADER] == [SHORT_HEADER] && "" + SHORT_HEADER == SHORT_HEADER;
    }
    ghost var start := Flat(lines);
    lines := AppendEntry(lines, h);
    after := (if file.Missing? then "" else file.text) + Flat(lines);
    FrontAssociates(if file.Missing? then "" else file.text, start, Block(h));
  }

  lemma FrontAssociates(old_: string, start: string, block: string)
    ensures old_ + (start + block) == old_ + start + block
    ensures "" + start == start && old_ + "" == old_
  {
    Associates(old_, start, block);
  }

  /** Saving hosts and appending one more gives the file that saving all of them gives, byte for byte. */
  method SaveThenAppend(hosts: seq<Host>, h: Host) returns (appended: string, rewritten: string)
    ensures appended == rewritten
  {
    var saved := SaveHosts(hosts);
    appended := AppendHost(Contents(saved), h);
    rewritten := SaveHosts(hosts + [h]);
    AppendIsRewrite(FULL_HEADER, hosts, h);
  }

  // ---------- theorems ----------

  /** The entries of a registry with one more host at its end. */
  lemma AppendIsRewrite(header: string, hs: seq<Host>, h: Host)
    ensures header + Blocks(hs + [h]) == header + Blocks(hs) + Block(h)
  {
    assert (hs + [h])[..|hs|] == hs;
    Associates(header, Blocks(hs), Block(h));
  }

  predicate CleanHost(h: Host)
  {
    && Clean(h.ip) && Clean(h.label_) && Clean(h.htype) && Clean(h.displayName) && Clean(h.groups)
    && CleanItems(h.allIps) && Clean(h.hostname) && Clean(h.serviceTag) && Clean(h.identitySource)
  }

  predicate CleanHosts(hs: seq<Host>)
  {
    forall i :: 0 <= i < |hs| ==> CleanHost(hs[i])
  }

  function Put(t: Table, s: Slot): Table
  {
    if s.Present? then t[s.key := s.value] else t
  }

  function PutAll(t: Table, slots: seq<Slot>): Table
    decreases |slots|
  {
    if slots == [] then t else PutAll(Put(t, slots[0]), slots[1..])
  }

  predicate CleanSlot(s: Slot)
  {
    s.Present? ==> CleanValue(s.value)
  }

  predicate CleanSlots(slots: seq<Slot>)
  {
    forall i :: 0 <= i < |slots| ==> CleanSlot(slots[i])
  }

  ghost predicate NewKeys(slots: seq<Slot>, t: Table)
  {
    && (forall i :: 0 <= i < |slots| ==> IsKey(slots[i].key) && slots[i].key !in t)
    && (forall i, j :: 0 <= i < j < |slots| ==> slots[i].key != slots[j].key)
  }

  lemma {:induction false} DocReadsSlots(slots: seq<Slot>, rest: string, before: seq<Table>, last: Table)
    requires NewKeys(slots, last)
    ensures ReadDoc(PrintSlots(slots) + rest, before + [last])
         == if CleanSlots(slots) then ReadDoc(rest, before + [PutAll(last, slots)]) else Err
    decreases |slots|
  {
    if slots == [] {
      assert PrintSlots(slots) + rest == rest;
    } else {
      var slot, more := slots[0], PrintSlots(slots[1..]) + rest;
      assert PrintSlots(slots) + rest == PrintSlot(slot) + more;
      if slot.Present? {
        DocReadsPair(slot.key, slot.value, more, before, last);
      } else {
        assert "" + more == more;
      }
      assert CleanSlots(slots) <==> CleanSlot(slot) && CleanSlots(slots[1..]);
      assert NewKeys(slots[1..], Put(last, slot));
      DocReadsSlots(slots[1..], rest, before, Put(last, slot));
    }
  }

  /** The keys of a host entry, in order. */
  const KEYS: seq<string> := ["ip", "label", "type", "display_name", "groups", "vmid", "managed", "all_ips", "hostname",
                              "service_tag", "identity_source"]

  lemma KeysAreKeys()
    ensures forall i :: 0 <= i < |KEYS| ==> IsKey(KEYS[i])
  {
  }

  lemma KeysDiffer()
    ensures forall i, j :: 0 <= i < j < |KEYS| ==> KEYS[i] != KEYS[j]
  {
  }

  lemma SlotKeys(h: Host)
    ensures forall i :: 0 <= i < 11 ==> Slots(h)[i].key == KEYS[i]
  {
  }

  lemma KeysAreNew(slots: seq<Slot>)
    requires |slots| == |KEYS| && forall i :: 0 <= i < |KEYS| ==> slots[i].key == KEYS[i]
    ensures NewKeys(slots, map[])
  {
    KeysAreKeys();
    KeysDiffer();
  }

  lemma SlotsAreNew(h: Host)
    ensures forall i :: 0 <= i < 11 ==> Slots(h)[i].key == KEYS[i]
    ensures NewKeys(Slots(h), map[])
  {
    SlotKeys(h);
    KeysAreNew(Slots(h));
  }

  /** What a table holds after a list of slots with different keys has been put into it. */
  lemma {:induction false} PutAllLooksUp(t: Table, slots: seq<Slot>, i: nat)
    requires NewKeys(slots, t) && i < |slots|
    ensures slots[i].key in PutAll(t, slots) <==> slots[i].Present?
    ensures slots[i].Present? ==> PutAll(t, slots)[slots[i].key] == slots[i].value
    decreases |slots|
  {
    var t' := Put(t, slots[0]);
    if i == 0 {
      PutAllKeeps(t', slots[1..], slots[0].key);
    } else {
      assert NewKeys(slots[1..], t');
      PutAllLooksUp(t', slots[1..], i - 1);
    }
  }

  lemma {:induction false} PutAllKeeps(t: Table, slots: seq<Slot>, key: string)
    requires forall i :: 0 <= i < |slots| ==> slots[i].key != key
    ensures key in PutAll(t, slots) <==> key in t
    ensures key in t ==> PutAll(t, slots)[key] == t[key]
    decreases |slots|
  {
    if slots != [] {
      PutAllKeeps(Put(t, slots[0]), slots[1..], key);
    }
  }

  function TableOf(h: Host): Table
  {
    PutAll(map[], Slots(h))
  }

  lemma SlotOf(h: Host, i: nat)
    requires i < 11
    ensures var t, slot := TableOf(h), Slots(h)[i];
      (slot.key in t <==> slot.Present?) && (slot.Present? ==> t[slot.key] == slot.value)
  {
    SlotsAreNew(h);
    PutAllLooksUp(map[], Slots(h), i);
  }

  lemma OtherKeyIsMissing(h: Host, key: string)
    requires key !in KEYS
    ensures key !in TableOf(h)
  {
    SlotsAreNew(h);
    PutAllKeeps(map[], Slots(h), key);
  }

  /** The other names under which older files keep a name are never written. */
  lemma NoOldKeys(h: Host)
    ensures "name" !in TableOf(h) && "fqdn" !in TableOf(h) && "dns_name" !in TableOf(h)
  {
    assert "name" !in KEYS && "fqdn" !in KEYS && "dns_name" !in KEYS;
    OtherKeyIsMissing(h, "name");
    OtherKeyIsMissing(h, "fqdn");
    OtherKeyIsMissing(h, "dns_name");
  }

  lemma TextsLoad(h: Host)
    ensures var t := TableOf(h);
      && TextOr(t, "ip", "") == h.ip && TextOr(t, "label", "") == h.label_ && TextOr(t, "type", "linux") == h.htype
      && TextOr(t, "groups", "") == h.groups && TextOr(t, "service_tag", "") == h.serviceTag
      && TextOr(t, "identity_source", "") == h.identitySource
  {
    SlotOf(h, 0);
    SlotOf(h, 1);
    SlotOf(h, 2);
    SlotOf(h, 4);
    SlotOf(h, 9);
    SlotOf(h, 10);
  }

  lemma NamesLoad(h: Host)
    ensures FirstText(TableOf(h), ["display_name", "name"]) == h.displayName
    ensures FirstText(TableOf(h), ["hostname", "fqdn", "dns_name"]) == h.hostname
  {
    var t := TableOf(h);
    SlotOf(h, 3);
    SlotOf(h, 8);
    NoOldKeys(h);
    assert ["display_name", "name"][1..] == ["name"] && ["name"][1..] == [];
    assert FirstText(t, ["name"]) == "";
    var old3 := ["hostname", "fqdn", "dns_name"];
    assert old3[1..] == ["fqdn", "dns_name"] && ["fqdn", "dns_name"][1..] == ["dns_name"] && ["dns_name"][1..] == [];
    assert FirstText(t, ["dns_name"]) == "";
    assert FirstText(t, ["fqdn", "dns_name"]) == "";
  }

  lemma OthersLoad(h: Host)
    ensures VmidOf(TableOf(h)) == h.vmid && ManagedOf(TableOf(h)) == h.managed && AllIpsOf(TableOf(h)) == h.allIps
  {
    SlotOf(h, 5);
    SlotOf(h, 6);
    SlotOf(h, 7);
  }

  /** The defaults of the loader are the values that the printer leaves out. */
  lemma TableLoads(h: Host)
    ensures FromTable(TableOf(h)) == h
  {
    TextsLoad(h);
    NamesLoad(h);
    OthersLoad(h);
  }

  lemma CleanSlotsAreCleanHost(h: Host)
    ensures CleanSlots(Slots(h)) <==> CleanHost(h)
  {
    var s := Slots(h);
    assert Clean("");
    if CleanSlots(s) {
      assert CleanSlot(s[0]) && CleanSlot(s[1]) && CleanSlot(s[2]) && CleanSlot(s[3]) && CleanSlot(s[4]);
      assert CleanSlot(s[7]) && CleanSlot(s[8]) && CleanSlot(s[9]) && CleanSlot(s[10]);
    }
  }

  lemma BlockThen(lines: string, rest: string)
    ensures HOST_HEADER + ("\n" + (lines + "\n")) + rest == HOST_HEADER + ("\n" + (lines + ("\n" + rest)))
  {
    Associates(HOST_HEADER, "\n" + (lines + "\n"), rest);
    Associates("\n", lines + "\n", rest);
    Associates(lines, "\n", rest);
  }

  lemma DocReadsBlock(h: Host, rest: string, tables: seq<Table>)
    ensures ReadDoc(Block(h) + rest, tables) == if CleanHost(h) then ReadDoc(rest, tables + [TableOf(h)]) else Err
  {
    var lines, end := PrintSlots(Slots(h)), "\n" + rest;
    BlockThen(lines, rest);
    DocReadsHeader(lines + end, tables);
    SlotsAreNew(h);
    DocReadsSlots(Slots(h), end, tables, map[]);
    CleanSlotsAreCleanHost(h);
    DocReadsBlank(rest, tables + [TableOf(h)]);
  }

  function TablesOf(hs: seq<Host>): (ts: seq<Table>)
    ensures |ts| == |hs|
    ensures forall i :: 0 <= i < |hs| ==> ts[i] == TableOf(hs[i])
  {
    seq(|hs|, i requires 0 <= i < |hs| => TableOf(hs[i]))
  }

  lemma {:induction false} DocReadsBlocks(hs: seq<Host>, rest: string)
    ensures ReadDoc(Blocks(hs) + rest, []) == if CleanHosts(hs) then ReadDoc(rest, TablesOf(hs)) else Err
    decreases |hs|
  {
    if hs == [] {
      assert Blocks(hs) + rest == rest;
      assert TablesOf(hs) == [];
    } else {
      var before, last := hs[..|hs| - 1], hs[|hs| - 1];
      Associates(Blocks(before), Block(last), rest);
      DocReadsBlocks(before, Block(last) + rest);
      DocReadsBlock(last, rest, TablesOf(before));
      TablesSnoc(hs);
      CleanSnoc(hs);
    }
  }

  lemma TablesSnoc(hs: seq<Host>)
    requires hs != []
    ensures TablesOf(hs[..|hs| - 1]) + [TableOf(hs[|hs| - 1])] == TablesOf(hs)
  {
  }

  lemma CleanSnoc(hs: seq<Host>)
    requires hs != []
    ensures CleanHosts(hs) <==> CleanHosts(hs[..|hs| - 1]) && CleanHost(hs[|hs| - 1])
  {
  }

  /** A comment line with its line end, and more behind it. */
  function CommentThen(comment: string, more: string): string
  {
    "#" + (comment + ("\n" + more))
  }

  lemma WarningIsPlain()
    ensures Clean(WARNING) && '\n' !in WARNING
  {
    var parts := [" Managed by freq ", "\U{2014}", " do not edit while", " freq is running"];
    assert Clean(parts[0]) && Clean(parts[1]) && Clean(parts[2]) && Clean(parts[3]);
    assert Forbidden('\n');
    assert WARNING == parts[0] + parts[1] + parts[2] + parts[3];
  }

  lemma CommentThenConcat(comment: string, more: string, rest: string)
    ensures CommentThen(comment, more) + rest == CommentThen(comment, more + rest)
  {
  }

  lemma HeadersAreComments(rest: string)
    ensures ReadDoc(FULL_HEADER + rest, []) == ReadDoc(rest, [])
    ensures ReadDoc(SHORT_HEADER + rest, []) == ReadDoc(rest, [])
  {
    var blank := "\n" + rest;
    WarningIsPlain();
    CommentThenConcat(TITLE, CommentThen(WARNING, "\n"), rest);
    CommentThenConcat(WARNING, "\n", rest);
    CommentThenConcat(TITLE, "\n", rest);
    DocReadsBlank(rest, []);
    DocReadsComment(WARNING, blank, []);
    DocReadsComment(TITLE, CommentThen(WARNING, blank), []);
    DocReadsComment(TITLE, blank, []);
  }

  /**
   What a written registry loads as: its hosts if no string holds a forbidden character, and no host at all otherwise.
   */
  lemma WrittenLoads(header: string, hs: seq<Host>)
    requires header == FULL_HEADER || header == SHORT_HEADER
    ensures LoadHosts(header + Blocks(hs)) == if CleanHosts(hs) then hs else []
  {
    HeadersAreComments(Blocks(hs));
    DocReadsBlocks(hs, "");
    assert Blocks(hs) + "" == Blocks(hs);
    if CleanHosts(hs) {
      forall i | 0 <= i < |hs|
        ensures FromTable(TablesOf(hs)[i]) == hs[i]
      {
        TableLoads(hs[i]);
      }
      assert FromTables(TablesOf(hs)) == hs;
    }
  }

  /** No control character other than tab. */
  predicate NoControl(text: string)
  {
    forall i :: 0 <= i < |text| ==> text[i] as int == 9 || (32 <= text[i] as int && text[i] as int != 127)
  }

  predicate NoControlIn(h: Host)
  {
    && NoControl(h.ip) && NoControl(h.label_) && NoControl(h.htype) && NoControl(h.displayName) && NoControl(h.groups)
    && NoControl(h.hostname) && NoControl(h.serviceTag) && NoControl(h.identitySource)
    && forall i :: 0 <= i < |h.allIps| ==> NoControl(h.allIps[i])
  }

  lemma CleanIsNoControl(text: string)
    ensures Clean(text) <==> NoControl(text)
  {
    forall i | 0 <= i < |text|
      ensures Forbidden(text[i]) <==> !(text[i] as int == 9 || (32 <= text[i] as int && text[i] as int != 127))
    {
      ForbiddenAre(text[i]);
    }
  }

  lemma CleanHostIsNoControl(h: Host)
    ensures CleanHost(h) <==> NoControlIn(h)
  {
    CleanIsNoControl(h.ip);
    CleanIsNoControl(h.label_);
    CleanIsNoControl(h.htype);
    CleanIsNoControl(h.displayName);
    CleanIsNoControl(h.groups);
    CleanIsNoControl(h.hostname);
    CleanIsNoControl(h.serviceTag);
    CleanIsNoControl(h.identitySource);
    forall i | 0 <= i < |h.allIps|
      ensures Clean(h.allIps[i]) <==> NoControl(h.allIps[i])
    {
      CleanIsNoControl(h.allIps[i]);
    }
  }

  /** The round trip succeeds exactly for registries without control characters other than tab. */
  lemma RoundTrip(hs: seq<Host>)
    ensures LoadHosts(FULL_HEADER + Blocks(hs)) == hs <==> forall i :: 0 <= i < |hs| ==> NoControlIn(hs[i])
  {
    WrittenLoads(FULL_HEADER, hs);
    forall i | 0 <= i < |hs|
      ensures CleanHost(hs[i]) <==> NoControlIn(hs[i])
    {
      CleanHostIsNoControl(hs[i]);
    }
  }

  lemma CleanMore(hs: seq<Host>, h: Host)
    ensures CleanHosts(hs + [h]) <==> CleanHosts(hs) && CleanHost(h)
  {
    assert (hs + [h])[|hs|] == h;
    assert forall i :: 0 <= i < |hs| ==> (hs + [h])[i] == hs[i];
  }

  /**
   Appending to a file that loads as `hs` gives one that loads as `hs` and the new host, whichever way the file began.
   */
  lemma AppendLoads(header: string, hs: seq<Host>, h: Host)
    requires header == FULL_HEADER || header == SHORT_HEADER
    requires CleanHosts(hs)
    ensures LoadHosts(header + Blocks(hs) + Block(h)) == if CleanHost(h) then hs + [h] else []
  {
    CleanMore(hs, h);
    AppendIsRewrite(header, hs, h);
    WrittenLoads(header, hs + [h]);
  }

  // ---------- what the loader makes of other tables ----------

  /** An empty table is a managed Linux host without a name. */
  lemma BareTableLoads()
    ensures FromTable(map[]) == Host("", "", "linux", "", "", 0, true, [], "", "", "")
  {
    assert ["display_name", "name"][1..] == ["name"] && ["name"][1..] == [];
    assert ["hostname", "fqdn", "dns_name"][1..] == ["fqdn", "dns_name"];
    assert ["fqdn", "dns_name"][1..] == ["dns_name"] && ["dns_name"][1..] == [];
  }

  /** Names are also found under the keys of older files, which count only if the newer ones are missing or empty. */
  lemma OldKeysLoad(t: Table)
    ensures FromTable(t).displayName ==
      if TextOr(t, "display_name", "") != "" then TextOr(t, "display_name", "") else TextOr(t, "name", "")
    ensures FromTable(t).hostname ==
      if TextOr(t, "hostname", "") != "" then TextOr(t, "hostname", "")
      else if TextOr(t, "fqdn", "") != "" then TextOr(t, "fqdn", "")
      else TextOr(t, "dns_name", "")
  {
    FirstOfTwo(t, "display_name", "name");
    FirstOfThree(t, "hostname", "fqdn", "dns_name");
  }

  lemma FirstOfTwo(t: Table, a: string, b: string)
    ensures FirstText(t, [a, b]) == if TextOr(t, a, "") != "" then TextOr(t, a, "") else TextOr(t, b, "")
  {
    var keys := [a, b];
    assert keys[1..] == [b] && [b][1..] == [];
    assert FirstText(t, [b]) == TextOr(t, b, "");
  }

  lemma FirstOfThree(t: Table, a: string, b: string, c: string)
    ensures FirstText(t, [a, b, c]) ==
      if TextOr(t, a, "") != "" then TextOr(t, a, "")
      else if TextOr(t, b, "") != "" then TextOr(t, b, "")
      else TextOr(t, c, "")
  {
    var keys := [a, b, c];
    assert keys[1..] == [b, c];
    FirstOfTwo(t, b, c);
  }

  /** Parts with a comma between each two of them. */
  function WithCommas(parts: seq<string>): string
  {
    if parts == [] then "" else if |parts| == 1 then parts[0] else parts[0] + ("," + WithCommas(parts[1..]))
  }

  function NotEmpty(parts: seq<string>): seq<string>
  {
    if parts == [] then [] else (if parts[0] == "" then [] else [parts[0]]) + NotEmpty(parts[1..])
  }

  lemma {:induction false} SplitGoesOn(front: string, s: string, part: string)
    requires ',' !in front
    ensures SplitCommas(front + s, part) == SplitCommas(s, part + front)
    decreases |front|
  {
    if front == "" {
      assert front + s == s && part + front == part;
    } else {
      assert (front + s)[1..] == front[1..] + s;
      assert part + [front[0]] + front[1..] == part + front;
      SplitGoesOn(front[1..], s, part + [front[0]]);
    }
  }

  /** Addresses in one text are cut at its commas, and empty ones are dropped. */
  lemma {:induction false} CommasSplit(parts: seq<string>)
    requires parts != [] && forall i :: 0 <= i < |parts| ==> ',' !in parts[i]
    ensures SplitCommas(WithCommas(parts), "") == NotEmpty(parts)
    decreases |parts|
  {
    var first, none: string := parts[0], "";
    assert none + first == first;
    if |parts| == 1 {
      SplitGoesOn(first, "", "");
      assert first + "" == first && parts[1..] == [];
      assert NotEmpty(parts) == if first == "" then [] else [first];
    } else {
      var more := WithCommas(parts[1..]);
      SplitGoesOn(first, "," + more, "");
      assert ("," + more)[1..] == more;
      CommasSplit(parts[1..]);
    }
  }

  lemma TextIdLoads(t: Table, n: int)
    ensures FromTable(t["vmid" := Str(PrintInt(n))]).vmid == n
  {
    IntReadsBack(n, "");
    assert PrintInt(n) + "" == PrintInt(n);
  }

  lemma TextFlagLoads(t: Table, text: string)
    ensures FromTable(t["managed" := Str(text)]).managed <==> Lower(text) !in ["false", "0", "no"]
  {
    assert ["false", "0", "no"] == ["false"] + ["0"] + ["no"];
  }

  /** Other types than the printed ones: addresses in one text, a flag as a text or a number, an id as a text. */
  lemma OtherTypesLoad(t: Table, text: string, n: int)
    ensures FromTable(t["all_ips" := Str(text)]).allIps == SplitCommas(text, "")
    ensures FromTable(t["managed" := Str(text)]).managed <==> Lower(text) !in ["false", "0", "no"]
    ensures FromTable(t["managed" := Int(n)]).managed <==> n != 0
    ensures FromTable(t["vmid" := Str(PrintInt(n))]).vmid == n
  {
    TextIdLoads(t, n);
    TextFlagLoads(t, text);
  }

  // ---------- the text of the file ----------

  lemma CommentIs(comment: string, line: string, more: string)
    requires line == "#" + comment
    ensures CommentThen(comment, more) == line + ("\n" + more)
  {
    Associates("#", comment, "\n" + more);
  }

  /** The first lines of a rewritten file and of a new one. */
  lemma HeadersRead()
    ensures var warning := "# Managed by freq " + ("\U{2014}" + " do not edit while freq is running");
      FULL_HEADER == "# FREQ Fleet Registry" + ("\n" + (warning + ("\n" + "\n")))
    ensures SHORT_HEADER == "# FREQ Fleet Registry" + ("\n" + "\n")
  {
    var warning := "# Managed by freq " + ("\U{2014}" + " do not edit while freq is running");
    WarningRead();
    CommentIs(TITLE, "# FREQ Fleet Registry", "\n");
    CommentIs(TITLE, "# FREQ Fleet Registry", CommentThen(WARNING, "\n"));
    CommentIs(WARNING, warning, "\n");
  }

  lemma WarningRead()
    ensures "#" + WARNING == "# Managed by freq " + ("\U{2014}" + " do not edit while freq is running")
  {
    var a, b, c, d := " Managed by freq ", "\U{2014}", " do not edit while", " freq is running";
    Associates(a, b, c);
    Associates(a, b + c, d);
    Associates(b, c, d);
    Associates("#", a, b + (c + d));
  }

  /** A key with an equals sign behind it, and a quoted text. */
  function TextLine(front: string, text: string): string
  {
    front + ("\"" + Escape(text) + "\"" + "\n")
  }

  lemma TextLineIs(key: string, front: string, text: string)
    requires front == key + " = "
    ensures PrintPair(key, Str(text)) == TextLine(front, text)
  {
    ReplacesEscape(text);
    Associates(key, " = ", PrintValue(Str(text)) + "\n");
  }

  lemma OtherLineIs(key: string, front: string, v: Value)
    requires front == key + " = "
    ensures PrintPair(key, v) == front + (PrintValue(v) + "\n")
  {
    Associates(key, " = ", PrintValue(v) + "\n");
  }

  /** The lines of an entry, with "" for a line that is left out. */
  function EntryLines(h: Host): seq<string>
  {
    [ TextLine("ip = ", h.ip),
      TextLine("label = ", h.label_),
      TextLine("type = ", h.htype),
      if h.displayName == "" then "" else TextLine("display_name = ", h.displayName),
      if h.groups == "" then "" else TextLine("groups = ", h.groups),
      if h.vmid == 0 then "" else "vmid = " + (PrintInt(h.vmid) + "\n"),
      if h.managed then "" else "managed = " + ("false" + "\n"),
      if h.allIps == [] then "" else "all_ips = " + ("[" + (JoinItems(h.allIps) + "]") + "\n"),
      if h.hostname == "" then "" else TextLine("hostname = ", h.hostname),
      if h.serviceTag == "" then "" else TextLine("service_tag = ", h.serviceTag),
      if h.identitySource == "" then "" else TextLine("identity_source = ", h.identitySource) ]
  }

  lemma TextSlotIs(key: string, front: string, text: string)
    requires front == key + " = "
    ensures PrintSlot(TextSlot(key, text)) == if text == "" then "" else TextLine(front, text)
  {
    TextLineIs(key, front, text);
  }

  lemma RequiredSlots(h: Host)
    ensures forall i :: 0 <= i < 3 ==> PrintSlot(Slots(h)[i]) == EntryLines(h)[i]
  {
    TextLineIs("ip", "ip = ", h.ip);
    TextLineIs("label", "label = ", h.label_);
    TextLineIs("type", "type = ", h.htype);
  }

  lemma DescriptionSlots(h: Host)
    ensures forall i :: 3 <= i < 5 ==> PrintSlot(Slots(h)[i]) == EntryLines(h)[i]
  {
    TextSlotIs("display_name", "display_name = ", h.displayName);
    TextSlotIs("groups", "groups = ", h.groups);
  }

  lemma ManagementSlots(h: Host)
    ensures forall i :: 5 <= i < 8 ==> PrintSlot(Slots(h)[i]) == EntryLines(h)[i]
  {
    OtherLineIs("vmid", "vmid = ", Int(h.vmid));
    OtherLineIs("managed", "managed = ", Bool(false));
    OtherLineIs("all_ips", "all_ips = ", Arr(h.allIps));
  }

  lemma HostnameSlot(h: Host)
    ensures PrintSlot(Slots(h)[8]) == EntryLines(h)[8]
  {
    TextSlotIs("hostname", "hostname = ", h.hostname);
  }

  lemma IdentitySlots(h: Host)
    ensures forall i :: 9 <= i < 11 ==> PrintSlot(Slots(h)[i]) == EntryLines(h)[i]
  {
    TextSlotIs("service_tag", "service_tag = ", h.serviceTag);
    TextSlotIs("identity_source", "identity_source = ", h.identitySource);
  }

  lemma PrefixSnoc<T>(s: seq<T>, k: nat)
    requires 0 < k <= |s|
    ensures s[..k] == s[..k - 1] + [s[k - 1]]
  {
  }

  lemma {:induction false} SlotsAreFlat(slots: seq<Slot>, lines: seq<string>, k: nat)
    requires k <= |slots| == |lines| && forall i :: 0 <= i < |slots| ==> PrintSlot(slots[i]) == lines[i]
    ensures PrintSlots(slots[..k]) == Flat(lines[..k])
    decreases k
  {
    if k > 0 {
      SlotsAreFlat(slots, lines, k - 1);
      PrefixSnoc(slots, k);
      PrefixSnoc(lines, k);
      PrintSlotsSnoc(slots[..k - 1], slots[k - 1]);
      FlatSnoc(lines[..k - 1], lines[k - 1]);
    }
  }

  /** The entry of a host: a header, its lines, and a blank line. */
  lemma EntryRead(h: Host)
    ensures Block(h) == "[[host]]" + ("\n" + (Flat(EntryLines(h)) + "\n"))
  {
    RequiredSlots(h);
    DescriptionSlots(h);
    ManagementSlots(h);
    HostnameSlot(h);
    IdentitySlots(h);
    SlotsAreFlat(Slots(h), EntryLines(h), 11);
    assert Slots(h)[..11] == Slots(h) && EntryLines(h)[..11] == EntryLines(h);
  }
}
