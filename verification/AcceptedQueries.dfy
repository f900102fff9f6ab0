/** From configured rules to the reply: a list the validator accepts is walked, and
    whatever the schedule the reply is one its plain reading allows. */
module AcceptedQueries {
  import opened Wrappers
  import opened DnsRules
  import opened SequentialReading
  import opened WalkState
  import opened RuleWalk
  import opened RuleTrees
  import opened RuleValidation

  // The query as it meets the built rules.
  function Against(q: Query, ts: seq<RuleTree>): Query {
    q.(rules := CompileAll(ts))
  }

  /** A refused list is not walked, and the refusal says why; an accepted one is walked to
      a permitted reply, with every exchange of the walk cancelled and no rule sent twice. */
  method AnswerQuery(sets: RuleSets, ts: seq<RuleTree>, q: Query, z: Schedule, cancellable: bool)
    returns (r: Result<Reply, Refusal>, futures: seq<Future>, last: Option<Launch>)
    requires Causal(z)
    ensures r.Ok? <==> Acceptable(sets, ts)
    ensures r.Ok? ==> AllCancelled(futures) && OnceEach(SentInAll(futures, last))
    ensures r.Ok? ==> Permitted(Against(q, ts), Steady(z), cancellable, r.value, futures, last)
    ensures r.Err? ==> futures == [] && last.None? && exists i :: RefusedAt(sets, ts, i) && Explains(sets, ts, i, r.error)
  {
    var validation := Validate(sets, ts);
    if validation.Err? {
      return Err(validation.error), [], None;
    }
    AcceptedIsWellFormed(sets, ts);
    var reply;
    reply, futures, last := ExchangeWithRules(Against(q, ts), z, cancellable, 0);
    return Ok(reply), futures, last;
  }

  /** In an accepted list without race rules that bind a response, the reply and the
      exchange it comes from are those of reading the rules one by one, waiting at each
      evaluate. */
  lemma AcceptedRacelessReply(sets: RuleSets, ts: seq<RuleTree>, q: Query, steady: bool, reply: Reply, futures: seq<Future>, last: Option<Launch>)
    requires Acceptable(sets, ts) && Permitted(Against(q, ts), steady, false, reply, futures, last)
    requires forall i | 0 <= i < |ts| && ts[i].options.race :: Tags(ts[i]) == [] && !Anonymous(ts[i])
    ensures var d := Sequential(Against(q, ts), 0, Start(Against(q, ts)));
            reply == Complete(Against(q, ts), d) && (d.Exchange? ==> d.launch in SentInAll(futures, last))
  {
    var query := Against(q, ts);
    forall i | 0 <= i < |query.rules|
      ensures !Races(query, i)
    {
      assert query.rules[i] == Compile(ts[i]);
    }
    RacelessReply(query, steady, reply, futures, last);
  }
}
