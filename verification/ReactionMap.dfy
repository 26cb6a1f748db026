/** The reactions of a message, `crates/mercury-crdt/src/reaction_map.rs`: an
    observed-remove set of (user, emoji) pairs. */
module ReactionMap {
  import opened Clock
  import opened Orset

  type UserId = nat
  type Reaction = (UserId, string)

  /** The users whose reaction with this emoji is present. */
  ghost function Users(s: State<Reaction>, emoji: string): set<UserId> {
    Behind(Elements(s), emoji)
  }

  ghost function Behind(present: set<Reaction>, emoji: string): set<UserId> {
    set r | r in present && r.1 == emoji :: r.0
  }

  ghost predicate CountsUsers(counts: map<string, nat>, present: set<Reaction>) {
    && (forall e :: e in counts <==> Behind(present, e) != {})
    && (forall e | e in counts :: counts[e] == |Behind(present, e)|)
  }

  lemma BehindGrows(present: set<Reaction>, r: Reaction, e: string)
    requires r !in present
    ensures Behind(present + {r}, e) == if e == r.1 then Behind(present, e) + {r.0} else Behind(present, e)
    ensures r.0 !in Behind(present, r.1)
  {
    forall u: UserId
      ensures u in Behind(present + {r}, e) <==> u in Behind(present, e) || (e == r.1 && u == r.0)
    {
      if u in Behind(present, e) {
        var x :| x in present && x.1 == e && x.0 == u;
        assert x in present + {r};
      }
      if e == r.1 && u == r.0 {
        assert r in present + {r};
      }
    }
  }

  lemma OneMoreReaction(counts: map<string, nat>, present: set<Reaction>, r: Reaction)
    requires CountsUsers(counts, present) && r !in present
    ensures CountsUsers(counts[r.1 := (if r.1 in counts then counts[r.1] else 0) + 1], present + {r})
  {
    forall e ensures Behind(present + {r}, e) == if e == r.1 then Behind(present, e) + {r.0} else Behind(present, e) {
      BehindGrows(present, r, e);
    }
    BehindGrows(present, r, r.1);
  }

  class Reactions {
    const reactions: OrSet<Reaction>

    constructor ()
      ensures fresh(reactions) && reactions.Value() == State(map[], map[])
    {
      reactions := new OrSet<Reaction>();
    }

    method AddReaction(user: UserId, emoji: string, n: NodeId)
      modifies reactions
      ensures reactions.Value() == Added(old(reactions.Value()), (user, emoji), n)
      ensures user in Users(reactions.Value(), emoji)
    {
      reactions.Add((user, emoji), n);
      UserReacted(reactions.Value(), user, emoji);
    }

    method RemoveReaction(user: UserId, emoji: string)
      modifies reactions
      ensures reactions.Value() == Removed(old(reactions.Value()), (user, emoji))
      ensures user !in Users(reactions.Value(), emoji)
    {
      reactions.Remove((user, emoji));
      UserReacted(reactions.Value(), user, emoji);
    }

    /** For every emoji in use, the number of distinct users behind it. */
    method Counts() returns (counts: map<string, nat>)
      ensures forall e :: e in counts <==> Users(reactions.Value(), e) != {}
      ensures forall e | e in counts :: counts[e] == |Users(reactions.Value(), e)|
    {
      counts := map[];
      var all := reactions.entries;
      var rest := all.Keys;
      ghost var present: set<Reaction> := {};
      while rest != {}
        invariant rest <= all.Keys
        invariant present == set r | r in all && r !in rest && all[r] != {}
        invariant CountsUsers(counts, present)
      {
        var r :| r in rest;
        rest := rest - {r};
        if all[r] != {} {
          OneMoreReaction(counts, present, r);
          counts := counts[r.1 := (if r.1 in counts then counts[r.1] else 0) + 1];
          present := present + {r};
        }
      }
      assert present == Elements(reactions.Value());
    }

    method Merge(other: Reactions)
      modifies reactions
      ensures reactions.Value() == Joined(old(reactions.Value()), old(other.reactions.Value()))
    {
      reactions.Merge(other.reactions);
    }
  }

  /** Merged reactions name a user under an emoji exactly when either side did,
      so one user counts once however many devices reported the reaction. */
  lemma MergedUsers(a: State<Reaction>, b: State<Reaction>, emoji: string)
    ensures Users(Joined(a, b), emoji) == Users(a, emoji) + Users(b, emoji)
  {
    forall u: UserId ensures u in Users(Joined(a, b), emoji) <==> u in Users(a, emoji) || u in Users(b, emoji) {
      UserReacted(a, u, emoji);
      UserReacted(b, u, emoji);
      UserReacted(Joined(a, b), u, emoji);
      JoinContains(a, b, (u, emoji));
    }
  }

  /** Adding a reaction puts its user behind its emoji, and removing it takes the
      user away again; no other pair changes. */
  lemma ReactionsChange(s: State<Reaction>, user: UserId, emoji: string, n: NodeId, u: UserId, e: string)
    ensures u in Users(Added(s, (user, emoji), n), e) <==> (u == user && e == emoji) || u in Users(s, e)
    ensures u in Users(Removed(s, (user, emoji)), e) <==> !(u == user && e == emoji) && u in Users(s, e)
  {
    var added, removed := Added(s, (user, emoji), n), Removed(s, (user, emoji));
    UserReacted(s, u, e);
    UserReacted(added, u, e);
    UserReacted(removed, u, e);
    AddStoresDot(s, (user, emoji), n);
    RemoveTakesDots(s, (user, emoji));
  }

  lemma UserReacted(s: State<Reaction>, u: UserId, emoji: string)
    ensures u in Users(s, emoji) <==> Contains(s, (u, emoji))
  {
    if Contains(s, (u, emoji)) {
      assert (u, emoji) in Elements(s);
    }
    if u in Users(s, emoji) {
      var r :| r in Elements(s) && r.1 == emoji && r.0 == u;
      assert r == (u, emoji);
    }
  }
}
