/** Setting, removing and reading the client subnet on messages that share records and
    options by reference. None of the operations has a modifies clause: whatever the
    caller holds is left as it was. */
module SubnetMessages {
  import opened Wrappers
  import opened ClientSubnet

  class Subnet {
    var value: SubnetValue

    constructor (value: SubnetValue)
      ensures this.value == value
    {
      this.value := value;
    }
  }

  datatype OptionRef = SubnetRef(subnet: Subnet) | OtherRef(code: nat, data: nat)

  class Opt {
    var options: seq<OptionRef>

    constructor (options: seq<OptionRef>)
      ensures this.options == options
    {
      this.options := options;
    }
  }

  datatype RecordRef = OptRef(opt: Opt) | DataRef(data: nat)

  class Message {
    var extra: seq<RecordRef>

    constructor (extra: seq<RecordRef>)
      ensures this.extra == extra
    {
      this.extra := extra;
    }
  }

  // ----- the value behind the references

  function SubnetsOf(options: seq<OptionRef>): set<Subnet> {
    set o | o in options && o.SubnetRef? :: o.subnet
  }

  function OptionValueOf(o: OptionRef): OptionValue
    reads if o.SubnetRef? then {o.subnet} else {}
  {
    match o
    case SubnetRef(subnet) => SubnetOption(subnet.value)
    case OtherRef(code, data) => OtherOption(code, data)
  }

  function OptionValues(options: seq<OptionRef>): (r: seq<OptionValue>)
    reads SubnetsOf(options)
    ensures |r| == |options|
  {
    seq(|options|, k requires 0 <= k < |options| reads SubnetsOf(options) => OptionValueOf(options[k]))
  }

  function OptsOf(extra: seq<RecordRef>): set<Opt> {
    set r | r in extra && r.OptRef? :: r.opt
  }

  function AllSubnetsOf(extra: seq<RecordRef>): set<Subnet>
    reads OptsOf(extra)
  {
    set r, s | r in extra && r.OptRef? && s in SubnetsOf(r.opt.options) :: s
  }

  function RecordValueOf(r: RecordRef): RecordValue
    reads OptsOf([r]), AllSubnetsOf([r])
  {
    match r
    case OptRef(opt) => OptRecord(OptionValues(opt.options))
    case DataRef(data) => OtherRecord(data)
  }

  function RecordValues(extra: seq<RecordRef>): (r: seq<RecordValue>)
    reads OptsOf(extra), AllSubnetsOf(extra)
    ensures |r| == |extra|
  {
    seq(|extra|, k requires 0 <= k < |extra| reads OptsOf(extra), AllSubnetsOf(extra) => RecordValueOf(extra[k]))
  }

  // ----- finding

  predicate NoSubnet(options: seq<OptionRef>, n: nat)
    requires n <= |options|
  {
    forall j | 0 <= j < n :: !options[j].SubnetRef?
  }

  predicate NoSubnets(extra: seq<RecordRef>, n: nat)
    requires n <= |extra|
    reads OptsOf(extra)
  {
    forall i | 0 <= i < n && extra[i].OptRef? :: NoSubnet(extra[i].opt.options, |extra[i].opt.options|)
  }

  /** The OPT record and the subnet option to write to, as far as they exist: a subnet
      option is the first one; without any, the OPT record is the last record. */
  predicate Found(extra: seq<RecordRef>, opt: Opt?, subnet: Subnet?, i: nat, j: nat)
    reads OptsOf(extra)
  {
    if opt == null then
      subnet == null && i == |extra| && j == 0 && NoSubnets(extra, |extra|) && (i > 0 ==> !extra[i - 1].OptRef?)
    else
      && i < |extra| && extra[i] == OptRef(opt) && j <= |opt.options|
      && NoSubnets(extra, i) && NoSubnet(opt.options, j)
      && (if subnet == null then i == |extra| - 1 && j == |opt.options|
          else j < |opt.options| && opt.options[j] == SubnetRef(subnet))
  }

  lemma NoSubnetsHasNone(extra: seq<RecordRef>, n: nat)
    requires n <= |extra| && NoSubnets(extra, n)
    ensures forall k | 0 <= k < n :: !HasSubnet(RecordValues(extra)[k])
  {
    forall k | 0 <= k < n && extra[k].OptRef?
      ensures !HasSubnet(RecordValueOf(extra[k]))
    {
      FirstOptionIs(OptionValues(extra[k].opt.options), |extra[k].opt.options|);
    }
  }

  // With a subnet, without one but with a last OPT record, and without either.
  lemma FoundSubnet(extra: seq<RecordRef>, opt: Opt, subnet: Subnet, i: nat, j: nat)
    requires Found(extra, opt, subnet, i, j)
    ensures Place(RecordValues(extra)) == (i, j)
  {
    NoSubnetsHasNone(extra, i);
    FirstOptionIs(OptionValues(opt.options), j);
    assert RecordValues(extra)[i] == OptRecord(OptionValues(opt.options));
    FirstRecordIs(RecordValues(extra), i);
  }

  lemma FoundOpt(extra: seq<RecordRef>, opt: Opt, i: nat, j: nat)
    requires Found(extra, opt, null, i, j)
    ensures Place(RecordValues(extra)) == (i, j)
  {
    NoSubnetsHasNone(extra, i);
    FirstOptionIs(OptionValues(opt.options), j);
    assert RecordValues(extra)[i] == OptRecord(OptionValues(opt.options));
    FirstRecordIs(RecordValues(extra), |extra|);
  }

  lemma FoundNothing(extra: seq<RecordRef>)
    requires Found(extra, null, null, |extra|, 0)
    ensures Place(RecordValues(extra)) == (|extra|, 0)
  {
    NoSubnetsHasNone(extra, |extra|);
    FirstRecordIs(RecordValues(extra), |extra|);
    assert extra != [] ==> RecordValues(extra)[|extra| - 1] == RecordValueOf(extra[|extra| - 1]);
  }

  method FindExists(extra: seq<RecordRef>) returns (opt: Opt?, subnet: Subnet?, ghost i: nat, ghost j: nat)
    ensures Found(extra, opt, subnet, i, j)
  {
    opt, subnet, i, j := null, null, 0, 0;
    for k := 0 to |extra|
      invariant subnet == null && i == k && j == 0 && NoSubnets(extra, k)
      invariant if k > 0 && extra[k - 1].OptRef? then opt == extra[k - 1].opt else opt == null
    {
      if extra[k].OptRef? {
        opt := extra[k].opt;
        for h := 0 to |opt.options|
          invariant NoSubnet(opt.options, h)
        {
          if opt.options[h].SubnetRef? {
            subnet, j := opt.options[h].subnet, h;
            return;
          }
        }
      } else {
        opt := null;
      }
      i := k + 1;
    }
    if opt != null {
      i, j := |extra| - 1, |opt.options|;
    }
  }

  // ----- copying

  predicate SameOptions(a: seq<OptionRef>, b: seq<OptionRef>)
    reads SubnetsOf(a), SubnetsOf(b)
  {
    |a| == |b| && forall k | 0 <= k < |a| :: OptionValueOf(a[k]) == OptionValueOf(b[k])
  }

  lemma SameOptionValues(a: seq<OptionRef>, b: seq<OptionRef>)
    requires SameOptions(a, b)
    ensures OptionValues(a) == OptionValues(b)
  {
  }

  predicate UnsharedOptions(options: seq<OptionRef>) {
    forall i, j | 0 <= i < j < |options| && options[i].SubnetRef? && options[j].SubnetRef? ::
      options[i].subnet != options[j].subnet
  }

  // No OPT record and no subnet option is referred to twice.
  predicate Unshared(extra: seq<RecordRef>)
    reads OptsOf(extra)
  {
    && (forall i | 0 <= i < |extra| && extra[i].OptRef? :: UnsharedOptions(extra[i].opt.options))
    && (forall i, j | 0 <= i < j < |extra| && extra[i].OptRef? && extra[j].OptRef? ::
          extra[i].opt != extra[j].opt && SubnetsOf(extra[i].opt.options) !! SubnetsOf(extra[j].opt.options))
  }

  method CopyOptions(options: seq<OptionRef>) returns (copy: seq<OptionRef>)
    ensures SameOptions(copy, options) && UnsharedOptions(copy) && fresh(SubnetsOf(copy))
  {
    copy := [];
    for k := 0 to |options|
      invariant |copy| == k
      invariant forall j | 0 <= j < k :: OptionValueOf(copy[j]) == OptionValueOf(options[j])
      invariant UnsharedOptions(copy)
      invariant forall j | 0 <= j < k && copy[j].SubnetRef? :: fresh(copy[j].subnet)
    {
      var next := options[k];
      if next.SubnetRef? {
        var subnet := new Subnet(next.subnet.value);
        next := SubnetRef(subnet);
      }
      copy := copy + [next];
    }
  }

  method CopyRecord(r: RecordRef) returns (copy: RecordRef)
    ensures RecordValueOf(copy) == RecordValueOf(r)
    ensures copy.OptRef? ==> fresh(copy.opt) && UnsharedOptions(copy.opt.options) && fresh(SubnetsOf(copy.opt.options))
  {
    if r.DataRef? {
      return r;
    }
    var options := CopyOptions(r.opt.options);
    var opt := new Opt(options);
    SameOptionValues(options, r.opt.options);
    copy := OptRef(opt);
  }

  method CopyExtra(extra: seq<RecordRef>) returns (copy: seq<RecordRef>)
    ensures RecordValues(copy) == old(RecordValues(extra))
    ensures Unshared(copy) && fresh(OptsOf(copy)) && fresh(AllSubnetsOf(copy))
  {
    if extra == [] {
      return [];
    }
    var rest, tail := extra[..|extra| - 1], extra[|extra| - 1];
    var front := CopyExtra(rest);
    KeptRecord(tail);
    copy := CopyOnto(front, tail);
  }

  method Copy(message: Message) returns (copy: Message)
    ensures RecordValues(copy.extra) == old(RecordValues(message.extra))
    ensures Unshared(copy.extra) && fresh(copy) && fresh(OptsOf(copy.extra)) && fresh(AllSubnetsOf(copy.extra))
  {
    var extra := CopyExtra(message.extra);
    label copied:
    copy := new Message(extra);
    KeptRecords@copied(extra);
  }

  method CopyOnto(front: seq<RecordRef>, r: RecordRef) returns (copy: seq<RecordRef>)
    requires Unshared(front)
    ensures RecordValues(copy) == old(RecordValues(front)) + [old(RecordValueOf(r))]
    ensures Unshared(copy)
    ensures forall o | o in OptsOf(copy) :: o in OptsOf(front) || fresh(o)
    ensures forall o | o in AllSubnetsOf(copy) :: o in old(AllSubnetsOf(front)) || fresh(o)
  {
    var last := CopyRecord(r);
    KeptRecord(r);
    KeptRecords(front);
    Appended(front, last);
    UnsharedAppended(front, last);
    copy := front + [last];
  }

  twostate lemma KeptRecord(r: RecordRef)
    requires forall o | o in OptsOf([r]) :: unchanged(o)
    requires forall o | o in old(AllSubnetsOf([r])) :: unchanged(o)
    ensures RecordValueOf(r) == old(RecordValueOf(r))
  {
  }

  twostate lemma KeptRecords(extra: seq<RecordRef>)
    requires forall o | o in OptsOf(extra) :: unchanged(o)
    requires forall o | o in old(AllSubnetsOf(extra)) :: unchanged(o)
    ensures RecordValues(extra) == old(RecordValues(extra))
    ensures AllSubnetsOf(extra) == old(AllSubnetsOf(extra))
    ensures Unshared(extra) == old(Unshared(extra))
  {
  }

  lemma UnsharedAppended(front: seq<RecordRef>, last: RecordRef)
    requires Unshared(front)
    requires last.OptRef? ==>
               && last.opt !in OptsOf(front) && UnsharedOptions(last.opt.options)
               && SubnetsOf(last.opt.options) !! AllSubnetsOf(front)
    ensures Unshared(front + [last])
  {
  }

  lemma Appended(front: seq<RecordRef>, last: RecordRef)
    ensures RecordValues(front + [last]) == RecordValues(front) + [RecordValueOf(last)]
    ensures OptsOf(front + [last]) == OptsOf(front) + if last.OptRef? then {last.opt} else {}
    ensures AllSubnetsOf(front + [last]) == AllSubnetsOf(front) + if last.OptRef? then SubnetsOf(last.opt.options) else {}
  {
    assert (front + [last])[..|front|] == front;
  }

  // ----- changing in place, on a copy

  method OverwriteOption(opt: Opt, subnet: Subnet, ghost j: nat, v: SubnetValue)
    requires UnsharedOptions(opt.options) && j < |opt.options| && opt.options[j] == SubnetRef(subnet)
    modifies subnet
    ensures OptionValues(opt.options) == SetOption(old(OptionValues(opt.options)), j, v)
  {
    subnet.value := v.(scope := subnet.value.scope);
    assert forall k | 0 <= k < |opt.options| && k != j :: OptionValueOf(opt.options[k]) == old(OptionValueOf(opt.options[k]));
  }

  twostate lemma KeptOptions(options: seq<OptionRef>)
    requires forall o | o in SubnetsOf(options) :: unchanged(o)
    ensures OptionValues(options) == old(OptionValues(options))
  {
  }

  method AddOption(opt: Opt, v: SubnetValue)
    modifies opt
    ensures OptionValues(opt.options) == SetOption(old(OptionValues(opt.options)), |old(opt.options)|, v)
  {
    var subnet := new Subnet(v);
    ghost var before := opt.options;
    opt.options := opt.options + [SubnetRef(subnet)];
    KeptOptions(before);
    assert opt.options[..|before|] == before;
  }

  method OverwriteIn(extra: seq<RecordRef>, opt: Opt, subnet: Subnet, ghost i: nat, ghost j: nat, v: SubnetValue)
    requires Unshared(extra) && Found(extra, opt, subnet, i, j)
    modifies subnet
    ensures RecordValues(extra) == Set(old(RecordValues(extra)), v)
  {
    FoundSubnet(extra, opt, subnet, i, j);
    OverwriteOption(opt, subnet, j, v);
    assert RecordValues(extra) == old(RecordValues(extra)[i := OptRecord(SetOption(OptionValues(opt.options), j, v))]);
  }

  method AddIn(extra: seq<RecordRef>, opt: Opt, ghost i: nat, ghost j: nat, v: SubnetValue)
    requires Unshared(extra) && Found(extra, opt, null, i, j)
    modifies opt
    ensures RecordValues(extra) == Set(old(RecordValues(extra)), v)
  {
    FoundOpt(extra, opt, i, j);
    AddOption(opt, v);
    assert RecordValues(extra) == old(RecordValues(extra)[i := OptRecord(SetOption(OptionValues(opt.options), j, v))]);
  }

  method NewOpt(v: SubnetValue) returns (opt: Opt)
    ensures fresh(opt) && fresh(SubnetsOf(opt.options)) && OptionValues(opt.options) == [SubnetOption(v)]
  {
    var subnet := new Subnet(v);
    opt := new Opt([SubnetRef(subnet)]);
  }

  // A new message with one more record; the others are shared.
  method AddRecord(extra: seq<RecordRef>, v: SubnetValue) returns (r: Message)
    requires Found(extra, null, null, |extra|, 0)
    ensures fresh(r) && RecordValues(r.extra) == Set(old(RecordValues(extra)), v)
  {
    FoundNothing(extra);
    var opt := NewOpt(v);
    KeptRecords(extra);
    Appended(extra, OptRef(opt));
    r := new Message(extra + [OptRef(opt)]);
  }

  method Filter(options: seq<OptionRef>) returns (kept: seq<OptionRef>)
    ensures OptionValues(kept) == WithoutSubnets(old(OptionValues(options)))
    ensures SubnetsOf(kept) == {}
  {
    kept := [];
    ghost var os := OptionValues(options);
    assert os[..0] == [];
    for k := 0 to |options|
      invariant OptionValues(kept) == WithoutSubnets(os[..k])
      invariant forall o | o in kept :: o.OtherRef?
    {
      assert os[..k + 1] == os[..k] + [os[k]] && os[k] == OptionValueOf(options[k]);
      WithoutSubnetsAfter(os[..k], [os[k]]);
      assert WithoutSubnets([os[k]]) == if Code(os[k]) == SUBNET_CODE then [] else [os[k]];
      if options[k].OtherRef? && options[k].code != SUBNET_CODE {
        kept := kept + [options[k]];
      }
    }
    assert os[..|options|] == os;
  }

  method Strip(extra: seq<RecordRef>)
    requires Unshared(extra)
    modifies OptsOf(extra)
    ensures RecordValues(extra) == Remove(old(RecordValues(extra)))
  {
    for i := 0 to |extra|
      invariant forall k | i <= k < |extra| && extra[k].OptRef? :: extra[k].opt.options == old(extra[k].opt.options)
      invariant forall k | 0 <= k < i :: RecordValueOf(extra[k]) == Stripped(old(RecordValueOf(extra[k])))
    {
      if extra[i].DataRef? {
        continue;
      }
      assert RecordValueOf(extra[i]) == old(RecordValueOf(extra[i]));
      StripOpt(extra[i].opt);
    }
  }

  method StripOpt(opt: Opt)
    modifies opt
    ensures OptionValues(opt.options) == WithoutSubnets(old(OptionValues(opt.options)))
  {
    var kept := Filter(opt.options);
    opt.options := kept;
    assert OptionValues(opt.options) == OptionValues(kept);
  }

  // ----- the operations

  method SetOnCopy(copy: Message, v: SubnetValue) returns (r: Message)
    requires Unshared(copy.extra)
    modifies OptsOf(copy.extra), AllSubnetsOf(copy.extra)
    ensures RecordValues(r.extra) == Set(old(RecordValues(copy.extra)), v)
  {
    var opt, subnet, i, j := FindExists(copy.extra);
    if opt == null {
      r := AddRecord(copy.extra, v);
    } else if subnet == null {
      AddIn(copy.extra, opt, i, j, v);
      r := copy;
    } else {
      assert opt.options[j] in opt.options && subnet in SubnetsOf(opt.options) && subnet in AllSubnetsOf(copy.extra);
      OverwriteIn(copy.extra, opt, subnet, i, j, v);
      r := copy;
    }
  }

  method SetClientSubnet(message: Message, p: Prefix) returns (r: Message)
    requires PrefixOk(p) && IsValid(p)
    ensures RecordValues(r.extra) == Set(old(RecordValues(message.extra)), ValueOf(p))
    ensures RecordValues(message.extra) == old(RecordValues(message.extra))
  {
    var opt, subnet, i, j := FindExists(message.extra);
    if opt == null {
      r := AddRecord(message.extra, ValueOf(p));
    } else {
      var copy := Copy(message);
      r := SetOnCopy(copy, ValueOf(p));
    }
    KeptRecords(message.extra);
  }

  predicate HasCode(options: seq<OptionRef>) {
    exists o | o in options :: o.SubnetRef? || o.code == SUBNET_CODE
  }

  method RemoveClientSubnet(message: Message) returns (r: Message)
    ensures RecordValues(r.extra) == Remove(old(RecordValues(message.extra)))
    ensures RecordValues(message.extra) == old(RecordValues(message.extra))
  {
    if !exists e | e in message.extra :: e.OptRef? && HasCode(e.opt.options) {
      NothingToRemove(message.extra);
      return message;
    }
    r := Copy(message);
    Strip(r.extra);
    KeptRecords(message.extra);
  }

  lemma NothingToRemove(extra: seq<RecordRef>)
    requires forall e | e in extra && e.OptRef? :: !HasCode(e.opt.options)
    ensures Remove(RecordValues(extra)) == RecordValues(extra)
  {
    forall k | 0 <= k < |extra| && extra[k].OptRef?
      ensures Stripped(RecordValueOf(extra[k])) == RecordValueOf(extra[k])
    {
      var options := extra[k].opt.options;
      assert forall j | 0 <= j < |options| :: options[j] in options;
      WithoutSubnetsHasNone(OptionValues(options));
    }
  }

  method ClientSubnetFromMessage(message: Message) returns (p: Prefix)
    ensures p == Read(RecordValues(message.extra))
  {
    var extra := message.extra;
    for i := 0 to |extra|
      invariant NoSubnets(extra, i)
    {
      if extra[i].DataRef? {
        continue;
      }
      var options := extra[i].opt.options;
      for j := 0 to |options|
        invariant NoSubnet(options, j)
      {
        if options[j].SubnetRef? {
          var v := options[j].subnet.value;
          FoundSubnet(extra, extra[i].opt, options[j].subnet, i, j);
          var address := AddrFromSlice(v.address);
          if address.None? {
            return NO_PREFIX;
          }
          return PrefixFrom(Unmap(address.value), v.netmask as nat);
        }
      }
    }
    NoSubnetsHasNone(extra, |extra|);
    return NO_PREFIX;
  }

  method PrepareExchangeMessage(message: Message, o: Settings) returns (r: Message)
    requires PrefixOk(o.query) && PrefixOk(o.client)
    ensures RecordValues(r.extra) == Prepared(old(RecordValues(message.extra)), o)
    ensures RecordValues(message.extra) == old(RecordValues(message.extra))
  {
    if o.removeClientSubnet {
      r := RemoveClientSubnet(message);
      return;
    }
    var asked := o.query;
    if !IsValid(asked) {
      asked := o.client;
    }
    r := message;
    if IsValid(asked) {
      r := SetClientSubnet(message, asked);
    }
  }

  method NewCacheKeySubnet(message: Message, o: Settings) returns (p: Prefix)
    ensures p == KeySubnet(RecordValues(message.extra), o)
  {
    p := NO_PREFIX;
    if !o.removeClientSubnet {
      p := o.query;
      if !IsValid(p) {
        p := o.client;
      }
      if !IsValid(p) {
        p := ClientSubnetFromMessage(message);
      }
    }
  }
}
