/** Where a consumer group begins: it is created at the end of its stream. */
module GroupStarts {
  import opened Wrappers
  import opened Dispatch
  import opened StreamDelivery
  import opened NoLoss

  /** Ids are given out one after the other, and a group is given none from before its start. */
  ghost predicate FromStart(b: Bus) {
    && (forall id: nat :: id in b.published <==> id < b.nextId)
    && (forall d :: d in b.delivered ==> d.key in b.start && b.start[d.key] <= d.id)
  }

  lemma ReadIsFromStart(cfg: Config, b: Bus, w: WorkerId, replyLost: bool)
    requires CursorsOk(b) && FromStart(b)
    ensures FromStart(ReadGroup(cfg, b, w, replyLost))
  {
    if w.key in b.cursor { NextIdsAreLive(b, w.key.stream, b.cursor[w.key], 10); }
    hide NextIds, InStream, TakeUp, EntriesOf;
  }

  lemma ActionKeepsStart(cfg: Config, b: Bus, a: Action)
    requires CursorsOk(b) && FromStart(b)
    ensures FromStart(Apply(cfg, b, a))
    ensures forall key :: key in b.start ==> key in Apply(cfg, b, a).start && Apply(cfg, b, a).start[key] == b.start[key]
    ensures forall id: nat :: id in b.published ==> id in Apply(cfg, b, a).published
  {
    hide Step, TakeUp, NextIds, EntriesOf, Kept, Gone, InStream;
    match a
    case Read(w, replyLost) =>
      ReadIsFromStart(cfg, b, w, replyLost);
    case _ =>
  }

  lemma RunGoesOn(cfg: Config, b: Bus, actions: seq<Action>, a: Action)
    ensures Run(cfg, b, actions + [a]) == Apply(cfg, Run(cfg, b, actions), a)
  {
    assert (actions + [a])[..|actions|] == actions;
  }

  lemma CursorsKept(cfg: Config, actions: seq<Action>)
    ensures CursorsOk(Run(cfg, Empty(), actions))
  {
    RunKeeps(cfg, actions);
    hide Run, LogOk, RecordsOk, WorkersOk, AllAccountedFor;
  }

  lemma {:induction false} RunIsFromStart(cfg: Config, actions: seq<Action>)
    ensures FromStart(Run(cfg, Empty(), actions))
  {
    if actions != [] {
      var front, a := actions[..|actions| - 1], actions[|actions| - 1];
      RunIsFromStart(cfg, front);
      assert actions == front + [a];
      hide *;
      CursorsKept(cfg, front);
      RunGoesOn(cfg, Empty(), front, a);
      ActionKeepsStart(cfg, Run(cfg, Empty(), front), a);
    }
  }

  lemma {:induction false} StartStays(cfg: Config, actions: seq<Action>, after: seq<Action>)
    ensures
      var b, c := Run(cfg, Empty(), actions), Run(cfg, Empty(), actions + after);
      && (forall key :: key in b.start ==> key in c.start && c.start[key] == b.start[key])
      && (forall id: nat :: id in b.published ==> id in c.published)
  {
    if after == [] {
      assert actions + after == actions;
    } else {
      var front, a := after[..|after| - 1], after[|after| - 1];
      StartStays(cfg, actions, front);
      assert actions + after == actions + front + [a];
      hide *;
      CursorsKept(cfg, actions + front);
      RunIsFromStart(cfg, actions + front);
      RunGoesOn(cfg, Empty(), actions + front, a);
      ActionKeepsStart(cfg, Run(cfg, Empty(), actions + front), a);
    }
  }

  lemma CreatedAtEnd(cfg: Config, b: Bus, key: GroupKey)
    requires CursorsOk(b) && key !in b.cursor
    ensures key in Apply(cfg, b, CreateGroup(key)).start && Apply(cfg, b, CreateGroup(key)).start[key] == b.nextId
  {
  }

  /**
   * A group gets the messages published after it was created and no others: in every run none from before is ever
   * delivered to it, and of its stream's later ones each that its reads have passed was delivered or trimmed.
   */
  lemma GroupGetsLaterMessages(cfg: Config, before: seq<Action>, key: GroupKey, after: seq<Action>, id: nat)
    requires key !in Run(cfg, Empty(), before).cursor
    ensures
      var was, b := Run(cfg, Empty(), before), Run(cfg, Empty(), before + [CreateGroup(key)] + after);
      && key in b.cursor
      && (id in was.published ==> Delivery(key, id) !in b.delivered)
      && (id in b.published && id !in was.published && b.published[id].stream == key.stream && id < b.cursor[key] ==>
            Delivery(key, id) in b.delivered || id !in b.live)
  {
    hide *;
    var created := before + [CreateGroup(key)];
    CursorsKept(cfg, before);
    CursorsKept(cfg, created + after);
    RunIsFromStart(cfg, before);
    RunIsFromStart(cfg, created + after);
    RunGoesOn(cfg, Empty(), before, CreateGroup(key));
    CreatedAtEnd(cfg, Run(cfg, Empty(), before), key);
    StartStays(cfg, created, after);
    FromCreation(Run(cfg, Empty(), before), Run(cfg, Empty(), created + after), key, id);
  }

  lemma FromCreation(was: Bus, b: Bus, key: GroupKey, id: nat)
    requires FromStart(was) && FromStart(b) && CursorsOk(b)
    requires key in b.start && b.start[key] == was.nextId
    ensures key in b.cursor
    ensures id in was.published ==> Delivery(key, id) !in b.delivered
    ensures id in b.published && id !in was.published && b.published[id].stream == key.stream && id < b.cursor[key] ==>
      Delivery(key, id) in b.delivered || id !in b.live
  {
  }

  /** The step drops a prefix of the message's stream that reaches it. */
  predicate Trims(b: Bus, id: nat, a: Action)
    requires id in b.published
  {
    a.Trim? && a.stream == b.published[id].stream && id < a.below
  }

  lemma ActionTrims(cfg: Config, b: Bus, a: Action, id: nat)
    requires id in b.published && id < b.nextId
    ensures
      var c := Apply(cfg, b, a);
      && id in c.published && id < c.nextId && c.published[id] == b.published[id]
      && (id in c.live <==> id in b.live && !Trims(b, id, a))
  {
    hide Step, TakeUp, NextIds, EntriesOf, Kept, Gone;
  }

  /** In every run a message is live until a prefix of its own stream that reaches it is dropped, and no longer. */
  lemma {:induction false} LiveExactly(cfg: Config, b: Bus, actions: seq<Action>, id: nat)
    requires id in b.published && id < b.nextId && id in b.live
    ensures
      var c := Run(cfg, b, actions);
      && id in c.published && id < c.nextId && c.published[id] == b.published[id]
      && (id in c.live <==> forall a :: a in actions ==> !Trims(b, id, a))
  {
    if actions != [] {
      var front, a := actions[..|actions| - 1], actions[|actions| - 1];
      LiveExactly(cfg, b, front, id);
      ActionTrims(cfg, Run(cfg, b, front), a, id);
      assert actions == front + [a];
      assert Trims(Run(cfg, b, front), id, a) == Trims(b, id, a);
      hide Apply;
    }
  }
}
