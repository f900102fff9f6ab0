/** How long a DNS response may be kept: the time to live read from its records, and
    the one written back to all of them. */
module TimeToLive {
  import opened Wrappers

  type TTL = n: nat | n < 0x1_0000_0000

  datatype Kind = OPT | SOA(minimum: TTL) | Data

  datatype Record = Record(kind: Kind, ttl: TTL, data: nat)

  datatype Message = Message(rcode: nat, answer: seq<Record>, ns: seq<Record>, extra: seq<Record>)

  function Records(m: Message): seq<Record> {
    m.answer + m.ns + m.extra
  }

  // OPT records reuse the field for other purposes.
  predicate Counts(r: Record) {
    r.kind != OPT
  }

  // ----- reading

  // The time to live so far, and one more record.
  function Shorter(ttl: TTL, r: Record): TTL {
    if Counts(r) && (ttl == 0 || 0 < r.ttl < ttl) then r.ttl else ttl
  }

  function Shortest(rs: seq<Record>): TTL {
    if rs == [] then 0 else Shorter(Shortest(rs[..|rs| - 1]), rs[|rs| - 1])
  }

  // v is the least positive TTL of the counting records, and 0 iff there is none.
  ghost predicate LeastPositive(rs: seq<Record>, v: TTL) {
    && (forall i | 0 <= i < |rs| && rs[i].kind != OPT && rs[i].ttl > 0 :: 0 < v <= rs[i].ttl)
    && (v > 0 ==> exists i | 0 <= i < |rs| :: rs[i].kind != OPT && rs[i].ttl == v)
  }

  lemma {:induction false} ShortestIsLeastPositive(rs: seq<Record>)
    ensures LeastPositive(rs, Shortest(rs))
  {
    if rs != [] {
      var rest := rs[..|rs| - 1];
      ShortestIsLeastPositive(rest);
      assert forall i | 0 <= i < |rest| :: rest[i] == rs[i];
    }
  }

  // It depends on which records there are.
  lemma LeastPositiveIsUnique(rs: seq<Record>, v: TTL, rs': seq<Record>, v': TTL)
    requires LeastPositive(rs, v) && LeastPositive(rs', v')
    requires forall r | r in rs :: r in rs'
    ensures v > 0 ==> 0 < v' <= v
  {
    if v > 0 {
      var i :| 0 <= i < |rs| && rs[i].kind != OPT && rs[i].ttl == v;
      assert rs[i] in rs';
    }
  }

  // The order of the records, within and across sections, does not matter.
  lemma {:induction false} ShortestIgnoresOrder(rs: seq<Record>, rs': seq<Record>)
    requires multiset(rs) == multiset(rs')
    ensures Shortest(rs) == Shortest(rs')
  {
    ShortestIsLeastPositive(rs);
    ShortestIsLeastPositive(rs');
    assert forall r | r in rs :: r in multiset(rs');
    assert forall r | r in rs' :: r in multiset(rs);
    LeastPositiveIsUnique(rs, Shortest(rs), rs', Shortest(rs'));
    LeastPositiveIsUnique(rs', Shortest(rs'), rs, Shortest(rs));
  }

  function FirstSOA(rs: seq<Record>): Option<Record> {
    if rs == [] then None else if rs[0].kind.SOA? then Some(rs[0]) else FirstSOA(rs[1..])
  }

  function NegativeTTL(soa: Record): TTL
    requires soa.kind.SOA?
  {
    if soa.ttl < soa.kind.minimum then soa.ttl else soa.kind.minimum
  }

  // An empty answer with an SOA record is a negative response.
  predicate Negative(m: Message) {
    m.answer == [] && FirstSOA(m.ns).Some?
  }

  lemma {:induction false} FirstSOAIsSOA(rs: seq<Record>)
    ensures FirstSOA(rs).Some? ==> FirstSOA(rs).value.kind.SOA?
    ensures FirstSOA(rs).Some? <==> exists i | 0 <= i < |rs| :: rs[i].kind.SOA?
    ensures FirstSOA(rs).Some? ==> exists i | 0 <= i < |rs| :: rs[i] == FirstSOA(rs).value && IsFirstSOA(rs, i)
  {
    if rs != [] && !rs[0].kind.SOA? {
      FirstSOAIsSOA(rs[1..]);
      assert forall i | 0 < i < |rs| :: rs[i] == rs[1..][i - 1];
      assert forall i | 0 <= i < |rs| - 1 :: rs[1..][i] == rs[i + 1];
      if FirstSOA(rs).Some? {
        var i :| 0 <= i < |rs| - 1 && rs[1..][i] == FirstSOA(rs).value && IsFirstSOA(rs[1..], i);
        assert IsFirstSOA(rs, i + 1);
      }
    } else if rs != [] {
      assert IsFirstSOA(rs, 0);
    }
  }

  predicate IsFirstSOA(rs: seq<Record>, i: nat) {
    i < |rs| && rs[i].kind.SOA? && forall j | 0 <= j < i :: !rs[j].kind.SOA?
  }

  // v is the lesser of the time to live and the minimum of the first SOA record.
  ghost predicate NegativeLife(ns: seq<Record>, v: TTL) {
    exists i: nat ::
      && IsFirstSOA(ns, i)
      && v <= ns[i].ttl && v <= ns[i].kind.minimum && (v == ns[i].ttl || v == ns[i].kind.minimum)
  }

  lemma FirstSOALife(ns: seq<Record>)
    requires FirstSOA(ns).Some?
    ensures FirstSOA(ns).value.kind.SOA? && NegativeLife(ns, NegativeTTL(FirstSOA(ns).value))
  {
    FirstSOAIsSOA(ns);
  }

  function TimeToLiveOf(m: Message): TTL {
    FirstSOAIsSOA(m.ns);
    if Negative(m) then NegativeTTL(FirstSOA(m.ns).value) else Shortest(Records(m))
  }

  /** The lesser of the first SOA's time to live and minimum if there is no answer but an
      SOA record, and otherwise the least positive time to live. */
  lemma TimeToLiveMeans(m: Message)
    ensures if m.answer == [] && (exists i | 0 <= i < |m.ns| :: m.ns[i].kind.SOA?)
            then NegativeLife(m.ns, TimeToLiveOf(m))
            else LeastPositive(m.answer + m.ns + m.extra, TimeToLiveOf(m))
  {
    FirstSOAIsSOA(m.ns);
    if Negative(m) {
      FirstSOALife(m.ns);
    } else {
      ShortestIsLeastPositive(Records(m));
    }
  }

  method ExtractNegativeTTL(ns: seq<Record>) returns (r: Option<TTL>)
    ensures FirstSOA(ns).None? ==> r.None?
    ensures FirstSOA(ns).Some? ==> FirstSOA(ns).value.kind.SOA? && r == Some(NegativeTTL(FirstSOA(ns).value))
    ensures r.None? <==> forall i | 0 <= i < |ns| :: !ns[i].kind.SOA?
    ensures r.Some? ==> NegativeLife(ns, r.value)
  {
    FirstSOAIsSOA(ns);
    if FirstSOA(ns).Some? {
      FirstSOALife(ns);
    }
    for i := 0 to |ns|
      invariant FirstSOA(ns) == FirstSOA(ns[i..])
    {
      assert ns[i..][1..] == ns[i + 1..];
      if ns[i].kind.SOA? {
        return Some(if ns[i].ttl < ns[i].kind.minimum then ns[i].ttl else ns[i].kind.minimum);
      }
    }
    return None;
  }

  // Continue over one section.
  method ScanSection(before: seq<Record>, section: seq<Record>, ttl: TTL) returns (r: TTL)
    requires ttl == Shortest(before)
    ensures r == Shortest(before + section)
  {
    r := ttl;
    assert before + section[..0] == before;
    for i := 0 to |section|
      invariant r == Shortest(before + section[..i])
    {
      var next := before + section[..i + 1];
      assert next[..|next| - 1] == before + section[..i];
      if !Counts(section[i]) {
        continue;
      }
      if r == 0 || 0 < section[i].ttl < r {
        r := section[i].ttl;
      }
    }
    assert section[..|section|] == section;
  }

  method ComputeTimeToLive(m: Message) returns (ttl: TTL)
    ensures ttl == TimeToLiveOf(m)
    ensures if m.answer == [] && (exists i | 0 <= i < |m.ns| :: m.ns[i].kind.SOA?)
            then NegativeLife(m.ns, ttl)
            else LeastPositive(m.answer + m.ns + m.extra, ttl)
  {
    TimeToLiveMeans(m);
    if |m.answer| == 0 {
      var negative := ExtractNegativeTTL(m.ns);
      if negative.Some? {
        return negative.value;
      }
    }
    assert [] + m.answer == m.answer;
    ttl := ScanSection([], m.answer, 0);
    ttl := ScanSection(m.answer, m.ns, ttl);
    ttl := ScanSection(m.answer + m.ns, m.extra, ttl);
  }

  // ----- writing

  function WithTTL(r: Record, ttl: TTL): Record {
    if Counts(r) then r.(ttl := ttl) else r
  }

  function Rewritten(rs: seq<Record>, ttl: TTL): (r: seq<Record>)
    ensures |r| == |rs|
  {
    seq(|rs|, i requires 0 <= i < |rs| => WithTTL(rs[i], ttl))
  }

  function Normalized(m: Message, ttl: TTL): Message {
    Message(m.rcode, Rewritten(m.answer, ttl), Rewritten(m.ns, ttl), Rewritten(m.extra, ttl))
  }

  // The same records, all but OPT records with the given time to live.
  ghost predicate Carry(rs: seq<Record>, ttl: TTL, rs': seq<Record>) {
    |rs'| == |rs| &&
    forall i | 0 <= i < |rs| ::
      rs'[i].kind == rs[i].kind && rs'[i].data == rs[i].data && rs'[i].ttl == if rs[i].kind == OPT then rs[i].ttl else ttl
  }

  ghost predicate CarriesAll(m: Message, ttl: TTL, m': Message) {
    m'.rcode == m.rcode && Carry(m.answer, ttl, m'.answer) && Carry(m.ns, ttl, m'.ns) && Carry(m.extra, ttl, m'.extra)
  }

  lemma NormalizedCarries(m: Message, ttl: TTL)
    ensures CarriesAll(m, ttl, Normalized(m, ttl))
  {
    assert Carry(m.answer, ttl, Rewritten(m.answer, ttl));
  }

  // The records of one section are changed in place.
  method NormalizeSection(section: array<Record>, ttl: TTL)
    modifies section
    ensures section[..] == Rewritten(old(section[..]), ttl)
    ensures Carry(old(section[..]), ttl, section[..])
  {
    for i := 0 to section.Length
      invariant forall k | 0 <= k < i :: section[k] == WithTTL(old(section[k]), ttl)
      invariant forall k | i <= k < section.Length :: section[k] == old(section[k])
    {
      if section[i].kind == OPT {
        continue;
      }
      section[i] := section[i].(ttl := ttl);
    }
  }

  method NormalizeTTL(answer: array<Record>, ns: array<Record>, extra: array<Record>, ttl: TTL)
    requires answer != ns && answer != extra && ns != extra
    modifies answer, ns, extra
    ensures forall rcode :: Message(rcode, answer[..], ns[..], extra[..]) ==
              Normalized(old(Message(rcode, answer[..], ns[..], extra[..])), ttl)
    ensures Carry(old(answer[..]), ttl, answer[..]) && Carry(old(ns[..]), ttl, ns[..]) && Carry(old(extra[..]), ttl, extra[..])
  {
    NormalizeSection(answer, ttl);
    NormalizeSection(ns, ttl);
    NormalizeSection(extra, ttl);
  }

  lemma RewrittenSections(m: Message, ttl: TTL)
    ensures Records(Normalized(m, ttl)) == Rewritten(Records(m), ttl)
  {
  }

  lemma {:induction false} RewrittenSOA(rs: seq<Record>, ttl: TTL)
    ensures FirstSOA(Rewritten(rs, ttl)) ==
              if FirstSOA(rs).Some? then Some(FirstSOA(rs).value.(ttl := ttl)) else None
  {
    if rs != [] {
      RewrittenSOA(rs[1..], ttl);
      assert Rewritten(rs, ttl)[1..] == Rewritten(rs[1..], ttl);
    }
  }

  predicate HasCounting(rs: seq<Record>) {
    exists i | 0 <= i < |rs| :: rs[i].kind != OPT
  }

  /** Writing a time to live and reading it back gives it again exactly when it is 0,
      or when some record carries it; and for a negative response, when it does not
      exceed the SOA minimum, which caps what is read. */
  lemma NormalizeThenCompute(m: Message, ttl: TTL)
    ensures TimeToLiveOf(Normalized(m, ttl)) == ttl <==>
              || ttl == 0
              || (if Negative(m) then FirstSOA(m.ns).value.kind.SOA? && ttl <= FirstSOA(m.ns).value.kind.minimum
                  else HasCounting(Records(m)))
    ensures forall i: nat | m.answer == [] && IsFirstSOA(m.ns, i) ::
              TimeToLiveOf(Normalized(m, ttl)) == if ttl <= m.ns[i].kind.minimum then ttl else m.ns[i].kind.minimum
    ensures !Negative(m) ==> TimeToLiveOf(Normalized(m, ttl)) == if HasCounting(Records(m)) then ttl else 0
  {
    var n := Normalized(m, ttl);
    RewrittenSOA(m.ns, ttl);
    FirstSOAIsSOA(m.ns);
    FirstSOAIsSOA(n.ns);
    assert n.answer == [] <==> m.answer == [];
    if !Negative(m) {
      var rs, rs' := Records(m), Records(n);
      RewrittenSections(m, ttl);
      ShortestIsLeastPositive(rs');
      assert forall i | 0 <= i < |rs| :: Counts(rs'[i]) == Counts(rs[i]) && (Counts(rs[i]) ==> rs'[i].ttl == ttl);
    }
  }
}
