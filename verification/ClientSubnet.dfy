/**
 * The EDNS client subnet option: writing it into a query without touching the caller's objects,
 * reading it back, and the agreement of the cache key with the query that is sent.
 */
module ClientSubnet {
  import opened DnsMessage
  import opened RuleTypes

  // ---- by value ---------------------------------------------------------------------------------

  /** Family 1 is IPv4 and 2 is IPv6. */
  function Encode(p: Prefix): (option: EdnsOption)
    requires p.IsValid()
    ensures option.Subnet? && Decode(option) == p
    ensures option.family == 1 <==> |p.addr| == 4
    ensures option.family == 2 <==> |p.addr| == 16
  {
    Subnet(if |p.addr| == 4 then 1 else 2, p.bits, p.addr)
  }

  /** An address is 4 or 16 bytes; a netmask that does not fit it leaves an invalid prefix. */
  function Decode(option: EdnsOption): Prefix
    requires option.Subnet?
  {
    if |option.address| != 4 && |option.address| != 16 then ZERO_PREFIX
    else if option.netmask <= 8 * |option.address| then Prefix(option.address, option.netmask)
    else Prefix(option.address, -1)
  }

  /** An option reads as a valid prefix exactly when its mask fits its address, and then as that one. */
  lemma DecodeExact(option: EdnsOption)
    requires option.Subnet?
    ensures Decode(option).IsValid() <==>
      (|option.address| == 4 && option.netmask <= 32) || (|option.address| == 16 && option.netmask <= 128)
    ensures Decode(option).IsValid() ==> Decode(option) == Prefix(option.address, option.netmask)
    ensures !Decode(option).IsValid() ==>
      Decode(option) == Prefix(if |option.address| == 4 || |option.address| == 16 then option.address else [], -1)
  {
  }

  /** The first subnet among a record's options. */
  function FirstIn(options: seq<EdnsOption>): (k: nat)
    ensures k <= |options| && (k < |options| ==> options[k].Subnet?)
    ensures forall i :: 0 <= i < k ==> !options[i].Subnet?
  {
    if options == [] || options[0].Subnet? then 0 else 1 + FirstIn(options[1..])
  }

  predicate HasSubnet(rr: RR) {
    rr.Opt? && FirstIn(rr.options) < |rr.options|
  }

  function FirstSubnet(extra: seq<RR>): (k: nat)
    ensures k <= |extra| && (k < |extra| ==> HasSubnet(extra[k]))
    ensures forall i :: 0 <= i < k ==> !HasSubnet(extra[i])
  {
    if extra == [] || HasSubnet(extra[0]) then 0 else 1 + FirstSubnet(extra[1..])
  }

  function SubnetOf(extra: seq<RR>): Prefix {
    var k := FirstSubnet(extra);
    if k == |extra| then ZERO_PREFIX else Decode(extra[k].options[FirstIn(extra[k].options)])
  }

  function SetIn(rr: RR, p: Prefix): RR
    requires rr.Opt? && p.IsValid()
  {
    var k := FirstIn(rr.options);
    Opt(rr.version, if k < |rr.options| then rr.options[k := Encode(p)] else rr.options + [Encode(p)])
  }

  /**
   * The record that receives the subnet: the first that has one, else the last record of all if it is an OPT, else a
   * new one.
   */
  function Target(extra: seq<RR>): (k: nat)
    ensures k <= |extra| && (k < |extra| ==> extra[k].Opt?)
  {
    var k := FirstSubnet(extra);
    if k < |extra| then k
    else if extra != [] && extra[|extra| - 1].Opt? then |extra| - 1
    else |extra|
  }

  function WithSubnet(extra: seq<RR>, p: Prefix): seq<RR>
    requires p.IsValid()
  {
    var k := Target(extra);
    if k < |extra| then extra[k := SetIn(extra[k], p)] else extra + [SetIn(Opt(0, []), p)]
  }

  lemma FirstSubnetIs(extra: seq<RR>, k: nat)
    requires k < |extra| && HasSubnet(extra[k])
    requires forall i :: 0 <= i < k ==> !HasSubnet(extra[i])
    ensures FirstSubnet(extra) == k
  {
  }

  lemma SetInFirst(rr: RR, p: Prefix)
    requires rr.Opt? && p.IsValid()
    ensures HasSubnet(SetIn(rr, p))
    ensures Decode(SetIn(rr, p).options[FirstIn(SetIn(rr, p).options)]) == p
  {
    var k := FirstIn(rr.options);
    assert SetIn(rr, p).options[k] == Encode(p);
  }

  /** Section 6 of RFC 7871 carries the prefix in full: reading back gives what was set, on every message. */
  lemma ReadBack(extra: seq<RR>, p: Prefix)
    requires p.IsValid()
    ensures SubnetOf(WithSubnet(extra, p)) == p
  {
    var k := Target(extra);
    var rr := if k < |extra| then extra[k] else Opt(0, []);
    SetInFirst(rr, p);
    assert WithSubnet(extra, p)[k] == SetIn(rr, p);
    FirstSubnetIs(WithSubnet(extra, p), k);
  }

  /** Only one option of one record is written, or added; a new record is added only at the end. */
  ghost predicate WritesOne(before: seq<RR>, after: seq<RR>, k: nat, p: Prefix) {
    && |after| == (if k < |before| then |before| else |before| + 1) && k < |after| && after[k].Opt?
    && (forall i :: 0 <= i < |before| && i != k ==> after[i] == before[i])
    && var was := if k < |before| then before[k] else Opt(0, []);
    && was.Opt? && after[k].version == was.version
    && exists j: nat :: WritesOption(was.options, after[k].options, j, p)
  }

  ghost predicate WritesOption(before: seq<EdnsOption>, after: seq<EdnsOption>, j: nat, p: Prefix) {
    && j <= |before| && |after| == (if j < |before| then |before| else |before| + 1)
    && after[j].Subnet? && Decode(after[j]) == p && (j < |before| ==> before[j].Subnet?)
    && (forall i :: 0 <= i < |before| && i != j ==> after[i] == before[i])
  }

  /** It goes to the first record that has a subnet, else to a last record that is an OPT, else to a new one. */
  lemma WritesInPlace(extra: seq<RR>, p: Prefix)
    requires p.IsValid()
    ensures exists k: nat :: WritesOne(extra, WithSubnet(extra, p), k, p) && RightPlace(extra, k)
  {
    var k := Target(extra);
    assert forall rr :: HasSubnet(rr) <==> CarriesSubnet(rr) by {
      forall rr ensures HasSubnet(rr) <==> CarriesSubnet(rr) {
        CarriesIs(rr);
      }
    }
    var was := if k < |extra| then extra[k] else Opt(0, []);
    var j := FirstIn(was.options);
    var after := WithSubnet(extra, p);
    assert after[k] == SetIn(was, p) && WritesOption(was.options, after[k].options, j, p);
    assert WritesOne(extra, WithSubnet(extra, p), k, p) && RightPlace(extra, k);
  }

  ghost predicate RightPlace(extra: seq<RR>, k: nat) {
    if exists i :: 0 <= i < |extra| && CarriesSubnet(extra[i]) then
      k < |extra| && CarriesSubnet(extra[k]) && forall i :: 0 <= i < k ==> !CarriesSubnet(extra[i])
    else if extra != [] && extra[|extra| - 1].Opt? then k == |extra| - 1
    else k == |extra|
  }

  ghost predicate CarriesSubnet(rr: RR) {
    rr.Opt? && exists i :: 0 <= i < |rr.options| && rr.options[i].Subnet?
  }

  lemma CarriesIs(rr: RR)
    ensures HasSubnet(rr) <==> CarriesSubnet(rr)
  {
  }

  /** Setting again replaces what was set, and nothing else. */
  lemma SetTwice(extra: seq<RR>, p: Prefix, q: Prefix)
    requires p.IsValid() && q.IsValid()
    ensures WithSubnet(WithSubnet(extra, p), q) == WithSubnet(extra, q)
  {
    var k := Target(extra);
    var rr := if k < |extra| then extra[k] else Opt(0, []);
    var once := WithSubnet(extra, p);
    SetInFirst(rr, p);
    assert once[k] == SetIn(rr, p);
    FirstSubnetIs(once, k);
    var j := FirstIn(rr.options);
    assert SetIn(rr, p).options[j] == Encode(p);
    assert FirstIn(SetIn(rr, p).options) == j;
    assert SetIn(SetIn(rr, p), q) == SetIn(rr, q);
  }

  // ---- the cache key ----------------------------------------------------------------------------

  /** The subnet a query is given: its own, else the client's. */
  function Configured(client: Prefix, options: QueryOptions): Prefix {
    if options.clientSubnet.IsValid() then options.clientSubnet else client
  }

  function Prepare(extra: seq<RR>, client: Prefix, options: QueryOptions): seq<RR> {
    var p := Configured(client, options);
    if p.IsValid() then WithSubnet(extra, p) else extra
  }

  function Effective(extra: seq<RR>, client: Prefix, options: QueryOptions): Prefix {
    if options.clientSubnet.IsValid() then options.clientSubnet
    else if client.IsValid() then client
    else SubnetOf(extra)
  }

  /**
   * The key's subnet is the one in the query sent, and Lookup, which does not prepare its message first, computes the
   * same key.
   */
  lemma KeyAgrees(extra: seq<RR>, client: Prefix, options: QueryOptions)
    ensures Effective(Prepare(extra, client, options), client, options) == SubnetOf(Prepare(extra, client, options))
    ensures Effective(extra, client, options) == Effective(Prepare(extra, client, options), client, options)
  {
    var p := Configured(client, options);
    if p.IsValid() {
      ReadBack(extra, p);
    }
  }

  /** Two queries with the same key subnet carry the same subnet to the server. */
  lemma SameKeySameSubnet(a: seq<RR>, b: seq<RR>, client: Prefix, o: QueryOptions, q: QueryOptions)
    requires Effective(a, client, o) == Effective(b, client, q)
    ensures SubnetOf(Prepare(a, client, o)) == SubnetOf(Prepare(b, client, q))
  {
    KeyAgrees(a, client, o);
    KeyAgrees(b, client, q);
  }

  // ---- objects ----------------------------------------------------------------------------------

  type PlainRR = rr: RR | !rr.Opt? witness Record(0, 0)

  class OptionCell {
    var option: EdnsOption
    ghost var home: RecordCell?   // the record this option was made for, and its place there
    ghost var place: nat

    constructor (option: EdnsOption, ghost home: RecordCell?, ghost place: nat)
      ensures this.option == option && this.home == home && this.place == place
    {
      this.option, this.home, this.place := option, home, place;
    }
  }

  class RecordCell {
    var isOpt: bool
    var version: nat
    var options: seq<OptionCell>
    var plain: PlainRR
    ghost var place: nat

    ghost function View(): RR
      reads this, options
    {
      if isOpt then Opt(version, Options(options)) else plain
    }

    constructor (isOpt: bool, version: nat, plain: PlainRR, ghost place: nat)
      ensures this.isOpt == isOpt && this.version == version && this.plain == plain && this.place == place
        && options == []
    {
      this.isOpt, this.version, this.plain, this.options, this.place := isOpt, version, plain, [], place;
    }
  }

  ghost function Options(cells: seq<OptionCell>): (r: seq<EdnsOption>)
    reads cells
    ensures |r| == |cells| && forall i :: 0 <= i < |cells| ==> r[i] == cells[i].option
  {
    if cells == [] then [] else Options(cells[..|cells| - 1]) + [cells[|cells| - 1].option]
  }

  ghost function Cells(records: seq<RecordCell>): (r: set<OptionCell>)
    reads records
    ensures forall i, cell :: 0 <= i < |records| && cell in records[i].options ==> cell in r
    ensures forall cell :: cell in r ==> exists i :: 0 <= i < |records| && cell in records[i].options
  {
    if records == [] then {}
    else Cells(records[..|records| - 1]) + Elements(records[|records| - 1].options)
  }

  ghost function Elements(cells: seq<OptionCell>): set<OptionCell> {
    set cell | cell in cells
  }

  ghost function Views(records: seq<RecordCell>): (r: seq<RR>)
    reads records, Cells(records)
    ensures |r| == |records| && forall i :: 0 <= i < |records| ==> r[i] == records[i].View()
  {
    if records == [] then [] else Views(records[..|records| - 1]) + [records[|records| - 1].View()]
  }

  /** No record or option object is used twice. */
  ghost predicate Separate(records: seq<RecordCell>)
    reads records, Cells(records)
  {
    forall i :: 0 <= i < |records| ==> records[i].place == i && OwnOptions(records[i])
  }

  ghost predicate OwnOptions(record: RecordCell)
    reads record, record.options
  {
    forall i :: 0 <= i < |record.options| ==> record.options[i].home == record && record.options[i].place == i
  }

  // ---- copying ----------------------------------------------------------------------------------

  method CopyRecord(record: RecordCell, ghost place: nat) returns (copy: RecordCell)
    ensures fresh(copy) && fresh(copy.options)
    ensures copy.View() == record.View() && copy.place == place && OwnOptions(copy)
  {
    copy := new RecordCell(record.isOpt, record.version, record.plain, place);
    for i := 0 to |record.options|
      invariant fresh(copy.options) && |copy.options| == i
      invariant copy.isOpt == record.isOpt && copy.version == record.version && copy.plain == record.plain
        && copy.place == place
      invariant OwnOptions(copy)
      invariant forall j :: 0 <= j < i ==> copy.options[j].option == record.options[j].option
    {
      var cell := new OptionCell(record.options[i].option, copy, i);
      copy.options := copy.options + [cell];
    }
    assert Options(copy.options) == Options(record.options);
  }

  method CopyRecords(records: seq<RecordCell>) returns (copies: seq<RecordCell>)
    ensures fresh(copies) && fresh(Cells(copies))
    ensures Views(copies) == Views(records) && Separate(copies)
  {
    hide OwnOptions, RecordCell.View;
    copies := [];
    for i := 0 to |records|
      invariant fresh(copies) && |copies| == i
      invariant forall j :: 0 <= j < i ==> fresh(copies[j].options)
      invariant forall j :: 0 <= j < i ==> copies[j].place == j && OwnOptions(copies[j])
      invariant forall j :: 0 <= j < i ==> copies[j].View() == records[j].View()
    {
      var copy := CopyRecord(records[i], i);
      copies := copies + [copy];
    }
    assert Views(copies) == Views(records);
  }

  // ---- setting ----------------------------------------------------------------------------------

  class Query {
    var id: nat
    var extra: seq<RecordCell>

    constructor (id: nat, extra: seq<RecordCell>)
      ensures this.id == id && this.extra == extra
    {
      this.id, this.extra := id, extra;
    }
  }

  /** The option loop of the search. */
  method FindIn(cells: seq<OptionCell>) returns (cell: OptionCell?)
    ensures var k := FirstIn(Options(cells)); cell == if k < |cells| then cells[k] else null
  {
    for i := 0 to |cells|
      invariant forall j :: 0 <= j < i ==> !cells[j].option.Subnet?
    {
      if cells[i].option.Subnet? {
        assert FirstIn(Options(cells)) == i;
        return cells[i];
      }
    }
    return null;
  }

  /**
   * The search for a place.  `opt` follows the loop: when no subnet is found it is the last record if that is
   * an OPT, and null otherwise, even if an earlier record is one.
   */
  method Find(records: seq<RecordCell>) returns (opt: RecordCell?, cell: OptionCell?)
    ensures var k := Target(Views(records)); opt == if k < |records| then records[k] else null
    ensures opt == null ==> cell == null
    ensures opt != null ==>
              var k := FirstIn(Options(opt.options)); cell == if k < |opt.options| then opt.options[k] else null
  {
    hide FirstIn, FirstSubnet, Cells, Views, Options;
    opt, cell := null, null;
    for i := 0 to |records|
      invariant forall j :: 0 <= j < i ==> !HasSubnet(records[j].View())
      invariant cell == null
      invariant opt == if i > 0 && records[i - 1].isOpt then records[i - 1] else null
    {
      opt := null;
      if records[i].isOpt {
        opt := records[i];
        cell := FindIn(records[i].options);
        if cell != null {
          FirstSubnetIs(Views(records), i);
          return;
        }
      }
    }
  }

  method WriteInto(record: RecordCell, cell: OptionCell?, p: Prefix)
    requires p.IsValid() && record.isOpt && OwnOptions(record)
    requires var k := FirstIn(Options(record.options)); cell == if k < |record.options| then record.options[k] else null
    modifies record`options, cell
    ensures record.View() == SetIn(old(record.View()), p)
  {
    hide FirstIn;
    ghost var was := Options(record.options);
    ghost var k := FirstIn(was);
    if cell == null {
      var option := new OptionCell(Encode(p), record, |record.options|);
      record.options := record.options + [option];
      assert Options(record.options) == was + [Encode(p)];
    } else {
      cell.option := Encode(p);
      assert Options(record.options) == was[k := Encode(p)];
    }
  }

  ghost function Parts(records: seq<RecordCell>): set<object>
    reads records
  {
    (set record: object | record in records) + (set cell: object | cell in Cells(records))
  }

  /** Writes into a message nobody else holds. */
  method WriteAt(records: seq<RecordCell>, opt: RecordCell, cell: OptionCell?, p: Prefix)
    requires p.IsValid() && Separate(records)
    requires var k := Target(Views(records)); k < |records| && opt == records[k]
    requires var k := FirstIn(Options(opt.options)); cell == if k < |opt.options| then opt.options[k] else null
    modifies Parts(records)
    ensures Views(records) == WithSubnet(old(Views(records)), p)
  {
    hide Views, FirstIn, FirstSubnet, SetIn, Options;
    ghost var k := Target(Views(records));
    ghost var was := Views(records);
    assert cell != null ==> cell in Cells(records);
    WriteInto(opt, cell, p);
    forall i | 0 <= i < |records|
      ensures records[i].View() == if i == k then SetIn(was[k], p) else was[i]
    {
      if i != k {
        assert old(records[i].place) == i;
      }
    }
    assert Views(records) == was[k := SetIn(was[k], p)];
  }

  method NewRecord(p: Prefix, ghost place: nat) returns (record: RecordCell)
    requires p.IsValid()
    ensures fresh(record) && fresh(record.options) && record.View() == SetIn(Opt(0, []), p)
  {
    record := new RecordCell(true, 0, Record(0, 0), place);
    var option := new OptionCell(Encode(p), record, 0);
    record.options := [option];
  }

  /** The branch that finds no OPT to write into: a shallow copy of the message with a new record. */
  method Extend(message: Query, p: Prefix) returns (m: Query)
    requires p.IsValid() && Target(Views(message.extra)) == |message.extra|
    ensures fresh(m) && m.id == message.id
    ensures Views(m.extra) == WithSubnet(old(Views(message.extra)), p)
  {
    hide Views, Cells, RecordCell.View, Options, SetIn;
    ghost var was := Views(message.extra);
    var record := NewRecord(p, |message.extra|);
    m := new Query(message.id, message.extra + [record]);
    assert Views(m.extra) == was + [record.View()];
  }

  /** Without cloning: writes into the message's own records. */
  method SetInPlace(message: Query, p: Prefix) returns (m: Query)
    requires p.IsValid() && Separate(message.extra)
    modifies Parts(message.extra)
    ensures m.id == old(message.id) && Views(m.extra) == WithSubnet(old(Views(message.extra)), p)
    ensures m == message || fresh(m)
  {
    hide FirstIn, Separate, Views, Cells, Options, FirstSubnet, SetIn, RecordCell.View;
    ghost var was := Views(message.extra);
    var opt, cell := Find(message.extra);
    if opt == null {
      m := Extend(message, p);
    } else {
      WriteAt(message.extra, opt, cell, p);
      m := message;
    }
  }

  method Copy(message: Query) returns (copy: Query)
    ensures fresh(copy) && fresh(Parts(copy.extra)) && copy.id == message.id
    ensures Separate(copy.extra) && Views(copy.extra) == old(Views(message.extra))
  {
    hide Separate, Views, Cells;
    var copies := CopyRecords(message.extra);
    copy := new Query(message.id, copies);
  }

  /**
   * With cloning: changes no existing object, so the caller's message, its records and their options are as they were.
   */
  method SetClientSubnet(message: Query, p: Prefix) returns (m: Query)
    requires p.IsValid()
    ensures fresh(m) && m.id == message.id
    ensures Views(m.extra) == WithSubnet(old(Views(message.extra)), p)
    ensures SubnetOf(Views(m.extra)) == p
  {
    hide FirstIn, Separate, Views, Cells, Options, FirstSubnet, SetIn, RecordCell.View, SubnetOf, Parts, WithSubnet;
    ghost var was := Views(message.extra);
    ReadBack(was, p);
    var opt, cell := Find(message.extra);
    assert Views(message.extra) == was;
    if opt == null {
      m := Extend(message, p);
      assert Views(m.extra) == WithSubnet(was, p);
    } else {
      var copy := Copy(message);
      assert Views(copy.extra) == was;
      m := SetInPlace(copy, p);
      assert Views(m.extra) == WithSubnet(was, p);
    }
  }

  method ReadSubnet(message: Query) returns (p: Prefix)
    ensures p == SubnetOf(Views(message.extra))
  {
    hide FirstIn, Cells;
    for i := 0 to |message.extra|
      invariant forall j :: 0 <= j < i ==> !HasSubnet(message.extra[j].View())
    {
      if message.extra[i].isOpt {
        var cell := FindIn(message.extra[i].options);
        if cell != null {
          FirstSubnetIs(Views(message.extra), i);
          return Decode(cell.option);
        }
      }
    }
    return ZERO_PREFIX;
  }

  /** What an exchange sends, and the subnet it files the answer under. */
  method PrepareExchange(message: Query, client: Prefix, options: QueryOptions) returns (sent: Query, key: Prefix)
    ensures sent.id == message.id && Views(sent.extra) == Prepare(old(Views(message.extra)), client, options)
    ensures key == SubnetOf(Views(sent.extra)) == Effective(old(Views(message.extra)), client, options)
    ensures options.clientSubnet.IsValid() ==> key == options.clientSubnet
    ensures !options.clientSubnet.IsValid() && client.IsValid() ==> key == client
    ensures !options.clientSubnet.IsValid() && !client.IsValid() ==> sent == message
  {
    KeyAgrees(Views(message.extra), client, options);
    var p := options.clientSubnet;
    if !p.IsValid() {
      p := client;
    }
    sent := message;
    if p.IsValid() {
      sent := SetClientSubnet(message, p);
    }
    if options.clientSubnet.IsValid() {
      key := options.clientSubnet;
    } else if client.IsValid() {
      key := client;
    } else {
      key := ReadSubnet(sent);
    }
  }
}
