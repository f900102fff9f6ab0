/** The client subnet option of a DNS query: setting it, removing it, and reading it
    back. A message is a list of additional records; OPT records hold options, one of
    which may be a client subnet (section 6 of RFC 7871). Messages, OPT records and
    subnet options are shared by reference, and the caller's are never changed. */
module ClientSubnet {
  import opened Wrappers

  newtype byte = b: int | 0 <= b < 256

  // ----- addresses and prefixes

  datatype Addr = NoAddr | V4(bytes: seq<byte>) | V6(bytes: seq<byte>)

  predicate AddrOk(a: Addr) {
    match a
    case NoAddr => true
    case V4(bytes) => |bytes| == 4
    case V6(bytes) => |bytes| == 16
  }

  function BitLen(a: Addr): nat {
    match a
    case NoAddr => 0
    case V4(_) => 32
    case V6(_) => 128
  }

  // A prefix without bits is not valid, but it still has its address.
  datatype Prefix = Prefix(addr: Addr, bits: Option<nat>)

  const NO_PREFIX := Prefix(NoAddr, None)

  predicate IsValid(p: Prefix) {
    p.bits.Some?
  }

  predicate PrefixOk(p: Prefix) {
    AddrOk(p.addr) && (IsValid(p) ==> !p.addr.NoAddr? && p.bits.value <= BitLen(p.addr))
  }

  function PrefixFrom(a: Addr, bits: nat): Prefix {
    Prefix(a, if !a.NoAddr? && bits <= BitLen(a) then Some(bits) else None)
  }

  function AddrFromSlice(bytes: seq<byte>): Option<Addr> {
    if |bytes| == 4 then Some(V4(bytes)) else if |bytes| == 16 then Some(V6(bytes)) else None
  }

  const MAPPED: seq<byte> := [0, 0, 0, 0, 0, 0, 0, 0, 0, 0, 255, 255]

  // An IPv6 address that stands for an IPv4 one.
  predicate IsMapped(a: Addr) {
    a.V6? && MAPPED <= a.bytes
  }

  function Unmap(a: Addr): Addr {
    if IsMapped(a) then V4(a.bytes[12..]) else a
  }

  // ----- messages by value

  datatype SubnetValue = SubnetValue(family: nat, netmask: byte, scope: byte, address: seq<byte>)

  datatype OptionValue = SubnetOption(value: SubnetValue) | OtherOption(code: nat, data: nat)

  datatype RecordValue = OptRecord(options: seq<OptionValue>) | OtherRecord(data: nat)

  const SUBNET_CODE: nat := 8

  function Code(o: OptionValue): nat {
    if o.SubnetOption? then SUBNET_CODE else o.code
  }

  function FirstSubnetOption(os: seq<OptionValue>): (r: Option<nat>)
    ensures r.Some? <==> exists j | 0 <= j < |os| :: os[j].SubnetOption?
    ensures r.Some? ==> r.value < |os| && os[r.value].SubnetOption? && forall j | 0 <= j < r.value :: !os[j].SubnetOption?
  {
    if os == [] then None
    else if os[0].SubnetOption? then Some(0)
    else
      assert forall j | 0 < j < |os| :: os[j] == os[1..][j - 1];
      match FirstSubnetOption(os[1..]) case None => None case Some(j) => Some(j + 1)
  }

  predicate HasSubnet(r: RecordValue) {
    r.OptRecord? && FirstSubnetOption(r.options).Some?
  }

  // The first record with a subnet option.
  function FirstSubnetRecord(rs: seq<RecordValue>): (r: Option<nat>)
    ensures r.Some? <==> exists i | 0 <= i < |rs| :: HasSubnet(rs[i])
    ensures r.Some? ==> r.value < |rs| && HasSubnet(rs[r.value]) && forall i | 0 <= i < r.value :: !HasSubnet(rs[i])
  {
    if rs == [] then None
    else if HasSubnet(rs[0]) then Some(0)
    else
      assert forall i | 0 < i < |rs| :: rs[i] == rs[1..][i - 1];
      match FirstSubnetRecord(rs[1..]) case None => None case Some(i) => Some(i + 1)
  }

  lemma FirstOptionIs(os: seq<OptionValue>, j: nat)
    requires j <= |os| && (forall k | 0 <= k < j :: !os[k].SubnetOption?) && (j < |os| ==> os[j].SubnetOption?)
    ensures FirstSubnetOption(os) == if j < |os| then Some(j) else None
  {
  }

  lemma FirstRecordIs(rs: seq<RecordValue>, i: nat)
    requires i <= |rs| && (forall k | 0 <= k < i :: !HasSubnet(rs[k])) && (i < |rs| ==> HasSubnet(rs[i]))
    ensures FirstSubnetRecord(rs) == if i < |rs| then Some(i) else None
  {
  }

  function FirstSubnet(rs: seq<RecordValue>): Option<SubnetValue> {
    match FirstSubnetRecord(rs)
    case None => None
    case Some(i) =>
      var j := FirstSubnetOption(rs[i].options).value;
      Some(rs[i].options[j].value)
  }

  function SubnetOf(v: SubnetValue): Prefix {
    match AddrFromSlice(v.address)
    case None => NO_PREFIX
    case Some(a) => PrefixFrom(Unmap(a), v.netmask as nat)
  }

  function Read(rs: seq<RecordValue>): Prefix {
    match FirstSubnet(rs) case None => NO_PREFIX case Some(v) => SubnetOf(v)
  }

  function ValueOf(p: Prefix): SubnetValue
    requires PrefixOk(p) && IsValid(p)
  {
    SubnetValue(if p.addr.V4? then 1 else 2, p.bits.value as byte, 0, p.addr.bytes)
  }

  predicate EndsInOpt(rs: seq<RecordValue>) {
    rs != [] && rs[|rs| - 1].OptRecord?
  }

  // Family, mask and address are overwritten; the scope stays.
  function Overwritten(o: OptionValue, v: SubnetValue): OptionValue {
    if o.SubnetOption? then SubnetOption(v.(scope := o.value.scope)) else o
  }

  // Where the subnet goes: which record, and which of its options.
  function Place(rs: seq<RecordValue>): (p: (nat, nat))
    ensures p.0 < |rs| ==> rs[p.0].OptRecord? && p.1 <= |rs[p.0].options|
    ensures p.0 <= |rs|
  {
    match FirstSubnetRecord(rs)
    case Some(i) => (i, FirstSubnetOption(rs[i].options).value)
    case None => if EndsInOpt(rs) then (|rs| - 1, |rs[|rs| - 1].options|) else (|rs|, 0)
  }

  function SetOption(os: seq<OptionValue>, j: nat, v: SubnetValue): seq<OptionValue>
    requires j <= |os|
  {
    if j < |os| then os[j := Overwritten(os[j], v)] else os + [SubnetOption(v)]
  }

  /** The first subnet option is overwritten. If there is none, one is added to the last
      record if that is an OPT record, else in a new OPT record, even if there is an OPT
      record further up. */
  function Set(rs: seq<RecordValue>, v: SubnetValue): seq<RecordValue> {
    var (i, j) := Place(rs);
    if i < |rs| then rs[i := OptRecord(SetOption(rs[i].options, j, v))] else rs + [OptRecord([SubnetOption(v)])]
  }

  function WithoutSubnets(os: seq<OptionValue>): seq<OptionValue> {
    if os == [] then []
    else if Code(os[0]) == SUBNET_CODE then WithoutSubnets(os[1..])
    else [os[0]] + WithoutSubnets(os[1..])
  }

  function Stripped(r: RecordValue): RecordValue {
    if r.OptRecord? then OptRecord(WithoutSubnets(r.options)) else r
  }

  function Remove(rs: seq<RecordValue>): seq<RecordValue> {
    seq(|rs|, i requires 0 <= i < |rs| => Stripped(rs[i]))
  }

  // ----- what they are worth

  lemma SetAtPlace(rs: seq<RecordValue>, v: SubnetValue)
    ensures var t := Set(rs, v); var i := Place(rs).0;
            FirstSubnetRecord(t) == Some(i) && FirstSubnetOption(t[i].options) == Some(Place(rs).1)
    ensures FirstSubnet(Set(rs, v)).Some? && FirstSubnet(Set(rs, v)).value.(scope := v.scope) == v
    ensures FirstSubnet(rs).Some? ==> FirstSubnet(Set(rs, v)).value.scope == FirstSubnet(rs).value.scope
  {
    var t := Set(rs, v);
    var (i, j) := Place(rs);
    assert forall k | 0 <= k < i :: t[k] == rs[k];
    var options := t[i].options;
    assert options[j].SubnetOption?;
    assert forall k | 0 <= k < j :: !options[k].SubnetOption?;
  }

  lemma {:induction false} WithoutSubnetsAfter(os: seq<OptionValue>, os': seq<OptionValue>)
    ensures WithoutSubnets(os + os') == WithoutSubnets(os) + WithoutSubnets(os')
  {
    if os == [] {
      assert os + os' == os';
    } else {
      WithoutSubnetsAfter(os[1..], os');
      assert (os + os')[1..] == os[1..] + os' && (os + os')[0] == os[0];
    }
  }

  /** Removing takes out exactly the options with the client subnet's code, and leaves all
      others where they were. */
  lemma RemovedExactly(os: seq<OptionValue>, o: OptionValue, os': seq<OptionValue>)
    ensures WithoutSubnets(os + [o] + os') ==
              WithoutSubnets(os) + (if o.SubnetOption? || o.code == 8 then [] else [o]) + WithoutSubnets(os')
    ensures WithoutSubnets([]) == []
  {
    WithoutSubnetsAfter(os + [o], os');
    WithoutSubnetsAfter(os, [o]);
  }

  // From every OPT record; all other records stay.
  lemma RemovedEverywhere(rs: seq<RecordValue>)
    ensures |Remove(rs)| == |rs|
    ensures forall i | 0 <= i < |rs| ::
              Remove(rs)[i] == if rs[i].OptRecord? then OptRecord(WithoutSubnets(rs[i].options)) else rs[i]
  {
  }

  lemma {:induction false} WithoutSubnetsHasNone(os: seq<OptionValue>)
    ensures forall o | o in WithoutSubnets(os) :: o in os && Code(o) != SUBNET_CODE
    ensures (forall o | o in os :: Code(o) != SUBNET_CODE) ==> WithoutSubnets(os) == os
  {
    if os != [] {
      WithoutSubnetsHasNone(os[1..]);
    }
  }

  lemma OverwriteKeepsOthers(os: seq<OptionValue>, j: nat, v: SubnetValue)
    requires j < |os| && os[j].SubnetOption?
    ensures WithoutSubnets(os[j := Overwritten(os[j], v)]) == WithoutSubnets(os)
  {
    var os' := os[j := Overwritten(os[j], v)];
    assert os == os[..j] + ([os[j]] + os[j + 1..]);
    assert os' == os[..j] + ([os'[j]] + os[j + 1..]);
    WithoutSubnetsAfter(os[..j], [os[j]] + os[j + 1..]);
    WithoutSubnetsAfter(os[..j], [os'[j]] + os[j + 1..]);
    WithoutSubnetsAfter([os[j]], os[j + 1..]);
    WithoutSubnetsAfter([os'[j]], os[j + 1..]);
  }

  // Setting the subnet changes nothing else: apart from subnets, at most an empty OPT record is new.
  lemma SetKeepsOthers(rs: seq<RecordValue>, v: SubnetValue)
    ensures Remove(Set(rs, v)) ==
              Remove(rs) + if FirstSubnetRecord(rs).None? && !EndsInOpt(rs) then [OptRecord([])] else []
  {
    var t := Set(rs, v);
    if FirstSubnetRecord(rs).Some? {
      var i := FirstSubnetRecord(rs).value;
      OverwriteKeepsOthers(rs[i].options, FirstSubnetOption(rs[i].options).value, v);
    } else if EndsInOpt(rs) {
      var options := rs[|rs| - 1].options;
      WithoutSubnetsAfter(options, [SubnetOption(v)]);
      assert WithoutSubnets([SubnetOption(v)]) == [] && WithoutSubnets(options) + [] == WithoutSubnets(options);
    } else {
      assert WithoutSubnets([SubnetOption(v)]) == [];
    }
  }

  // The last one set counts.
  lemma SetTwice(rs: seq<RecordValue>, v: SubnetValue, v': SubnetValue)
    requires v.scope == v'.scope
    ensures Set(Set(rs, v), v') == Set(rs, v')
  {
    var (i, j) := Place(rs);
    SetAtPlace(rs, v);
    if i < |rs| {
      SetOptionTwice(rs[i].options, j, v, v');
    } else {
      assert [SubnetOption(v)][0 := SubnetOption(v')] == [SubnetOption(v')];
      assert Set(Set(rs, v), v') == rs + [OptRecord([SubnetOption(v')])];
    }
  }

  lemma SetOptionTwice(os: seq<OptionValue>, j: nat, v: SubnetValue, v': SubnetValue)
    requires j <= |os| && v.scope == v'.scope
    ensures SetOption(SetOption(os, j, v), j, v') == SetOption(os, j, v')
  {
  }

  lemma RemoveLeavesNone(rs: seq<RecordValue>)
    ensures FirstSubnet(Remove(rs)).None? && Read(Remove(rs)) == NO_PREFIX
    ensures Remove(Remove(rs)) == Remove(rs)
  {
    forall i | 0 <= i < |rs|
      ensures !HasSubnet(Remove(rs)[i]) && Stripped(Remove(rs)[i]) == Remove(rs)[i]
    {
      if rs[i].OptRecord? {
        WithoutSubnetsHasNone(rs[i].options);
        var options := WithoutSubnets(rs[i].options);
        WithoutSubnetsHasNone(options);
        assert forall j | 0 <= j < |options| :: options[j] in options;
      }
    }
  }

  // ----- keys

  datatype Settings = Settings(removeClientSubnet: bool, query: Prefix, client: Prefix)

  // The subnet asked for: the query's own, or else the client's.
  function Asked(o: Settings): Prefix {
    if IsValid(o.query) then o.query else o.client
  }

  function Prepared(rs: seq<RecordValue>, o: Settings): seq<RecordValue>
    requires PrefixOk(o.query) && PrefixOk(o.client)
  {
    if o.removeClientSubnet then Remove(rs)
    else if IsValid(Asked(o)) then Set(rs, ValueOf(Asked(o)))
    else rs
  }

  function KeySubnet(rs: seq<RecordValue>, o: Settings): Prefix {
    if o.removeClientSubnet then NO_PREFIX
    else if IsValid(Asked(o)) then Asked(o)
    else Read(rs)
  }

  // A subnet option as it is made of a prefix: family 1 for IPv4 and 2 for IPv6.
  predicate Tells(p: Prefix, v: SubnetValue) {
    && (p.addr.V4? ==> v.family == 1 && v.address == p.addr.bytes)
    && (p.addr.V6? ==> v.family == 2 && v.address == p.addr.bytes)
    && p.bits == Some(v.netmask as nat)
  }

  // And as it is read: by the length of the address, whatever the family says.
  predicate ReadAs(v: SubnetValue, p: Prefix) {
    if |v.address| == 4 then p == Prefix(V4(v.address), if v.netmask <= 32 then Some(v.netmask as nat) else None)
    else if |v.address| == 16 && v.address[..12] == [0, 0, 0, 0, 0, 0, 0, 0, 0, 0, 255, 255] then
      p == Prefix(V4(v.address[12..]), if v.netmask <= 32 then Some(v.netmask as nat) else None)
    else if |v.address| == 16 then p == Prefix(V6(v.address), if v.netmask <= 128 then Some(v.netmask as nat) else None)
    else p == Prefix(NoAddr, None)
  }

  lemma SubnetMeans(v: SubnetValue, p: Prefix)
    ensures ReadAs(v, SubnetOf(v))
    ensures PrefixOk(p) && IsValid(p) ==> Tells(p, ValueOf(p)) && ValueOf(p).scope == 0
  {
    assert IsMapped(V6(v.address)) <==> |v.address| >= 12 && v.address[..12] == MAPPED;
  }

  /** What is sent and what the answer is kept under: nothing if subnets are to be removed;
      else the query's own subnet, else the client's, else what the message already says. */
  lemma PreparedMeans(rs: seq<RecordValue>, o: Settings)
    requires PrefixOk(o.query) && PrefixOk(o.client)
    ensures o.removeClientSubnet ==> FirstSubnet(Prepared(rs, o)).None? && KeySubnet(rs, o) == Prefix(NoAddr, None)
    ensures !o.removeClientSubnet && o.query.bits.Some? ==>
              FirstSubnet(Prepared(rs, o)).Some? && Tells(o.query, FirstSubnet(Prepared(rs, o)).value) && KeySubnet(rs, o) == o.query
    ensures !o.removeClientSubnet && o.query.bits.None? && o.client.bits.Some? ==>
              FirstSubnet(Prepared(rs, o)).Some? && Tells(o.client, FirstSubnet(Prepared(rs, o)).value) && KeySubnet(rs, o) == o.client
    ensures !o.removeClientSubnet && o.query.bits.None? && o.client.bits.None? ==>
              && Prepared(rs, o) == rs
              && if FirstSubnet(rs).Some? then ReadAs(FirstSubnet(rs).value, KeySubnet(rs, o)) else KeySubnet(rs, o) == Prefix(NoAddr, None)
  {
    RemoveLeavesNone(rs);
    if FirstSubnet(rs).Some? {
      SubnetMeans(FirstSubnet(rs).value, o.query);
    }
    if IsValid(Asked(o)) {
      SetAtPlace(rs, ValueOf(Asked(o)));
    }
  }

  lemma ReadsBack(p: Prefix)
    requires PrefixOk(p) && IsValid(p)
    ensures SubnetOf(ValueOf(p)) == p <==> !IsMapped(p.addr)
  {
  }

  /** What the prepared message tells the server is what the answer is cached under,
      exactly when the subnet asked for, if one is set, is not an IPv4-mapped one. */
  lemma KeyIsWhatIsSent(rs: seq<RecordValue>, o: Settings)
    requires PrefixOk(o.query) && PrefixOk(o.client)
    ensures Read(Prepared(rs, o)) == KeySubnet(rs, o) <==>
              o.removeClientSubnet || !IsValid(Asked(o)) || !IsMapped(Asked(o).addr)
    ensures KeySubnet(Prepared(rs, o), o) == KeySubnet(rs, o)
    ensures Prepared(Prepared(rs, o), o) == Prepared(rs, o)
  {
    RemoveLeavesNone(rs);
    if IsValid(Asked(o)) {
      ReadsBack(Asked(o));
      SetAtPlace(rs, ValueOf(Asked(o)));
      SetTwice(rs, ValueOf(Asked(o)), ValueOf(Asked(o)));
    }
  }

  // ::ffff:1.2.3.0/120 is sent, and cached under itself, but read back as an invalid IPv4 prefix.
  lemma MappedIsReadBackWrong()
    ensures var p := Prefix(V6(MAPPED + [1, 2, 3, 0]), Some(120));
            && PrefixOk(p)
            && Read(Prepared([], Settings(false, p, NO_PREFIX))) == Prefix(V4([1, 2, 3, 0]), None)
            && KeySubnet([], Settings(false, p, NO_PREFIX)) == p
  {
    var p := Prefix(V6(MAPPED + [1, 2, 3, 0]), Some(120));
    SetAtPlace([], ValueOf(p));
  }
}
