/** Where each answer of the link checker comes from: the step that made it, and the fetch it
    reports. */
module LinkAnswers {
  import opened Options
  import opened FetchModel
  import opened FetchTheorems
  import opened LinkPool

  /** The answer for a URL that was fetched: the fetch's status, valid exactly when it returned
      no error, with an error attached exactly when it did not succeed. */
  function Answered(url: string, r: Run): LinkResult {
    LinkResult(url, r.err.None?, r.rec.status, r.rec.outcome != Success)
  }

  /** The answer for a URL that was not fetched. */
  function Refused(url: string): LinkResult { LinkResult(url, false, 0, true) }

  /** In state `s`, label `l` makes answer `r` for index `i`: its worker holds that job, and the
      answer is the one of the fetch it ends, or a refusal by the URL's text or by the
      context. */
  ghost predicate Makes(cfg: Limits, s: Pool, l: Label, i: nat, r: LinkResult)
    requires InRange(s)
  {
    && i < |s.urls|
    && (l.Finish? || l.SeeCancel? || l.Abandon? || (l.TakeTick? && !l.allowed))
    && l.k < |s.workers| && s.workers[l.k].Busy() && s.workers[l.k].job == i && Enabled(cfg, s, l)
    && r == if l.Finish? then Answered(s.urls[i], Fetched(l.world, cfg, s.urls[i])) else Refused(s.urls[i])
  }

  /** The state after the first p steps. */
  ghost function At(cfg: Limits, s: Pool, ls: seq<Label>, p: nat): Pool
    requires Inv(s) && p <= |ls| && Exec(cfg, s, ls[..p]).Some?
    ensures Inv(At(cfg, s, ls, p))
  {
    Exec(cfg, s, ls[..p]).value
  }

  /** Step p of the run made answer `r` for index `i`. */
  ghost predicate MadeAt(cfg: Limits, s: Pool, ls: seq<Label>, p: nat, i: nat, r: LinkResult)
    requires Inv(s)
  {
    p < |ls| && Exec(cfg, s, ls[..p]).Some? && Makes(cfg, At(cfg, s, ls, p), ls[p], i, r)
  }

  ghost predicate Made(cfg: Limits, s: Pool, ls: seq<Label>, i: nat, r: LinkResult)
    requires Inv(s)
  {
    exists p: nat :: MadeAt(cfg, s, ls, p, i, r)
  }

  /** Every answer in the state, stored or about to be, was made by some step. */
  ghost predicate AllMade(cfg: Limits, s: Pool, ls: seq<Label>, t: Pool)
    requires Inv(s) && InRange(t)
  {
    && (forall i :: 0 <= i < |t.results| && t.results[i].Some? ==> Made(cfg, s, ls, i, t.results[i].value))
    && (forall k :: 0 <= k < |t.workers| && t.workers[k].Storing? ==>
          Made(cfg, s, ls, t.workers[k].job, t.workers[k].result))
  }

  /** Running one step more. */
  lemma {:induction false} ExecSnoc(cfg: Limits, s: Pool, ls: seq<Label>, l: Label)
    requires Inv(s)
    ensures var before := Exec(cfg, s, ls);
            Exec(cfg, s, ls + [l])
              == if before.Some? && Enabled(cfg, before.value, l) then Some(Apply(cfg, before.value, l)) else None
    decreases |ls|
  {
    if ls == [] {
      assert [] + [l] == [l] && [l][1..] == [];
      if Enabled(cfg, s, l) {
        StepKeepsInv(cfg, s, l);
      }
    } else {
      var more := ls + [l];
      assert more[0] == ls[0] && more[1..] == ls[1..] + [l];
      if Enabled(cfg, s, ls[0]) {
        StepKeepsInv(cfg, s, ls[0]);
        ExecSnoc(cfg, Apply(cfg, s, ls[0]), ls[1..], l);
      }
    }
  }

  lemma MadeStays(cfg: Limits, s: Pool, ls: seq<Label>, l: Label, i: nat, r: LinkResult)
    requires Inv(s) && Made(cfg, s, ls, i, r)
    ensures Made(cfg, s, ls + [l], i, r)
  {
    var p: nat :| MadeAt(cfg, s, ls, p, i, r);
    var more := ls + [l];
    assert more[..p] == ls[..p] && more[p] == ls[p];
    assert MadeAt(cfg, s, more, p, i, r);
  }

  /** A worker is left with an answer only by a step that makes it. */
  lemma NewAnswerIsMade(cfg: Limits, s: Pool, l: Label)
    requires Inv(s) && Enabled(cfg, s, l) && ByWorker(l) && Apply(cfg, s, l).workers[l.k].Storing?
    ensures var w := Apply(cfg, s, l).workers[l.k]; Makes(cfg, s, l, w.job, w.result)
  {
    if l.Finish? {
      SuccessMeansBody(l.world, cfg, s.urls[s.workers[l.k].job]);
    }
  }

  lemma StepKeepsMade(cfg: Limits, s: Pool, ls: seq<Label>, l: Label, before: Pool)
    requires Inv(s) && Exec(cfg, s, ls) == Some(before) && Inv(before) && Enabled(cfg, before, l)
    requires AllMade(cfg, s, ls, before)
    ensures Inv(Apply(cfg, before, l)) && AllMade(cfg, s, ls + [l], Apply(cfg, before, l))
  {
    StepKeepsInv(cfg, before, l);
    Frame(cfg, before, l);
    var more, t := ls + [l], Apply(cfg, before, l);
    assert more[..|ls|] == ls;
    forall k | 0 <= k < |t.workers| && t.workers[k].Storing?
      ensures Made(cfg, s, more, t.workers[k].job, t.workers[k].result)
    {
      if ByWorker(l) && k == l.k {
        NewAnswerIsMade(cfg, before, l);
        assert MadeAt(cfg, s, more, |ls|, t.workers[k].job, t.workers[k].result);
      } else {
        assert t.workers[k] == before.workers[k];
        MadeStays(cfg, s, ls, l, t.workers[k].job, t.workers[k].result);
      }
    }
    forall i | 0 <= i < |t.results| && t.results[i].Some?
      ensures Made(cfg, s, more, i, t.results[i].value)
    {
      StoredIsKnown(cfg, before, l, i);
      MadeStays(cfg, s, ls, l, i, t.results[i].value);
    }
  }

  /** A stored answer was stored before, or a worker held it. */
  lemma StoredIsKnown(cfg: Limits, s: Pool, l: Label, i: nat)
    requires Inv(s) && Enabled(cfg, s, l) && i < |s.results|
    ensures |Apply(cfg, s, l).results| == |s.results|
    ensures var r := Apply(cfg, s, l).results[i];
            || r == s.results[i]
            || (l.Store? && l.k < |s.workers| && s.workers[l.k].Storing? && s.workers[l.k].job == i
                && r == Some(s.workers[l.k].result))
  {
  }

  /** Over every run of the call, each stored answer was made for its index by a step of the
      run: the end of a fetch of that URL, whose result it reports, or a refusal. */
  lemma {:induction false} AnswersAreMade(cfg: Limits, urls: seq<string>, others: nat, ls: seq<Label>)
    requires others <= MAX_SLOTS && |urls| <= MAX_URLS
    requires Exec(cfg, Start(urls, others).value, ls).Some?
    ensures var s := Start(urls, others).value;
            AllMade(cfg, s, ls, Exec(cfg, s, ls).value)
  {
    var s := Start(urls, others).value;
    if ls != [] {
      var init, l := ls[..|ls| - 1], ls[|ls| - 1];
      assert init + [l] == ls;
      ExecSnoc(cfg, s, init, l);
      AnswersAreMade(cfg, urls, others, init);
      StepKeepsMade(cfg, s, init, l, Exec(cfg, s, init).value);
    }
  }

  predicate Undisturbed(ls: seq<Label>) {
    forall p :: 0 <= p < |ls| ==> !ls[p].Cancel? && (ls[p].TakeTick? ==> ls[p].allowed)
  }

  lemma {:induction false} NotCanceled(cfg: Limits, s: Pool, ls: seq<Label>)
    requires Inv(s) && s.canceled.None? && Undisturbed(ls) && Exec(cfg, s, ls).Some?
    ensures Exec(cfg, s, ls).value.canceled.None?
  {
    if ls != [] {
      var init, l := ls[..|ls| - 1], ls[|ls| - 1];
      assert init + [l] == ls && Undisturbed(init);
      ExecSnoc(cfg, s, init, l);
      NotCanceled(cfg, s, init);
      OnlyCancelCancels(cfg, Exec(cfg, s, init).value, l);
    }
  }

  lemma OnlyCancelCancels(cfg: Limits, s: Pool, l: Label)
    requires Inv(s) && Enabled(cfg, s, l) && !l.Cancel?
    ensures Apply(cfg, s, l).canceled == s.canceled
  {
  }

  /** Where a fetch of the URL at `i` ended, and what it found. */
  ghost predicate FetchedAt(cfg: Limits, ls: seq<Label>, p: nat, url: string, r: LinkResult) {
    p < |ls| && ls[p].Finish? && r == Answered(url, Fetched(ls[p].world, cfg, url))
  }

  /** In a run that is not canceled, over URLs that pass the text check, every answer is that
      of a fetch: valid, with its status, exactly when the fetch returned no error. */
  lemma UndisturbedAnswersAreFetches(cfg: Limits, urls: seq<string>, others: nat, ls: seq<Label>, i: nat)
    requires others <= MAX_SLOTS && |urls| <= MAX_URLS && i < |urls| && Undisturbed(ls)
    requires var e := Exec(cfg, Start(urls, others).value, ls);
             e.Some? && i < |e.value.results| && e.value.results[i].Some?
    ensures exists p: nat ::
              FetchedAt(cfg, ls, p, urls[i], Exec(cfg, Start(urls, others).value, ls).value.results[i].value)
  {
    var s := Start(urls, others).value;
    var r := Exec(cfg, s, ls).value.results[i].value;
    AnswersAreMade(cfg, urls, others, ls);
    var p: nat :| MadeAt(cfg, s, ls, p, i, r);
    NotCanceled(cfg, s, ls[..p]);
    UrlsStay(cfg, s, ls[..p]);
    assert FetchedAt(cfg, ls, p, urls[i], r);
  }

  lemma UrlsStay(cfg: Limits, s: Pool, ls: seq<Label>)
    requires Inv(s) && Exec(cfg, s, ls).Some?
    ensures Exec(cfg, s, ls).value.urls == s.urls
  {
    RunFacts(cfg, s, ls);
  }
}
