/** Which of the two panels is on the screen: the user list (uswitch of ulist.c) or the process tree
    (pswitch and root_change of plist.c). Both see every 't' and every ENTER. */
module Panels {
  import opened Groves
  import opened Options

  const INIT_PID: Pid := 1

  /** The keys that switch. */
  datatype Toggle = KeyT | KeyEnter

  /** `last` is the key the tree switched on last, `root` the process whose tree it shows. */
  datatype Panel = Panel(hidden: bool, last: Option<Toggle>, root: Pid)

  /** `user` is the process of the user under the cursor of the user list, if there is one. */
  datatype Event = Event(key: Toggle, user: Option<Pid>)

  function SwitchTree(p: Panel, e: Event): Panel {
    Panel(
      if p.hidden then false else e.key == KeyEnter,
      Some(e.key),
      if p.hidden && e.key == KeyEnter then (if e.user.Some? then e.user.value else INIT_PID)
      else if e.key == KeyT && p.last != Some(KeyT) then INIT_PID
      else if p.hidden then INIT_PID
      else p.root)
  }

  lemma SwitchCases(p: Panel, e: Event)
    ensures SwitchTree(p, e).last == Some(e.key)
    ensures p.hidden ==> !SwitchTree(p, e).hidden
    ensures p.hidden ==>
              SwitchTree(p, e).root == if e.key == KeyEnter && e.user.Some? then e.user.value else INIT_PID
    ensures !p.hidden && e.key == KeyEnter ==> SwitchTree(p, e) == Panel(true, Some(KeyEnter), p.root)
    ensures !p.hidden && e.key == KeyT ==>
              SwitchTree(p, e) == Panel(false, Some(KeyT), if p.last == Some(KeyT) then p.root else INIT_PID)
  {
  }

  function SwitchUsers(hidden: bool, e: Event): bool {
    if !hidden then true else e.key == KeyT
  }

  function Run(users: bool, p: Panel, es: seq<Event>): (bool, Panel)
    decreases |es|
  {
    if es == [] then (users, p) else Run(SwitchUsers(users, es[0]), SwitchTree(p, es[0]), es[1..])
  }

  /** Before the first key. */
  function Start(): (bool, Panel) {
    (false, Panel(true, None, INIT_PID))
  }

  /** Exactly one of the two is visible; and a tree last asked for with 't' is that of init, so that a
      second 't' rightly does nothing. */
  ghost predicate Consistent(users: bool, p: Panel) {
    users != p.hidden && (!p.hidden && p.last == Some(KeyT) ==> p.root == INIT_PID)
  }

  lemma {:induction false} AlwaysOne(users: bool, p: Panel, es: seq<Event>)
    requires Consistent(users, p)
    ensures var (u, q) := Run(users, p, es); Consistent(u, q)
    decreases |es|
  {
    if es != [] {
      AlwaysOne(SwitchUsers(users, es[0]), SwitchTree(p, es[0]), es[1..]);
    }
  }

  lemma {:induction false} RunLast(users: bool, p: Panel, es: seq<Event>, e: Event)
    ensures var (u, q) := Run(users, p, es);
            Run(users, p, es + [e]) == (SwitchUsers(u, e), SwitchTree(q, e))
    decreases |es|
  {
    if es == [] {
      assert ([] + [e])[1..] == [];
    } else {
      assert (es + [e])[1..] == es[1..] + [e];
      RunLast(SwitchUsers(users, es[0]), SwitchTree(p, es[0]), es[1..], e);
    }
  }

  /** Whatever was pressed before: 't' ends on the tree of init, ENTER on the other panel than before,
      and if that is the tree, on the tree of the user under the cursor, or of init if there is no user. */
  lemma LastKeyDecides(es: seq<Event>, e: Event)
    ensures var (users, p) := Run(Start().0, Start().1, es);
            var (users', p') := Run(Start().0, Start().1, es + [e]);
            && users' != p'.hidden
            && (e.key == KeyT ==> !p'.hidden && p'.root == 1)
            && (e.key == KeyEnter ==> p'.hidden == !p.hidden)
            && (e.key == KeyEnter && p.hidden ==> p'.root == if e.user.Some? then e.user.value else 1)
  {
    AlwaysOne(Start().0, Start().1, es);
    RunLast(Start().0, Start().1, es, e);
  }
}
