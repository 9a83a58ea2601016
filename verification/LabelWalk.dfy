/**
 The walk of a dying connection over its table of labels, whose disconnect listeners may put labels
 back into the table while it is being walked.
 */
module LabelWalk {
  import opened Common
  import opened RawTcp

  function Elements(order: seq<string>): set<string> {
    set l | l in order
  }

  /* ------------------------------ what listeners open ------------------------------ */

  /** The labels, in order, for which new transports are made when `asked` are opened one after the other. */
  function Made(held: set<string>, asked: seq<string>): seq<string>
    decreases |asked|
  {
    if asked == [] then []
    else if asked[0] in held then Made(held, asked[1..])
    else [asked[0]] + Made(held + {asked[0]}, asked[1..])
  }

  lemma {:induction false} MadeAre(held: set<string>, asked: seq<string>)
    ensures Elements(Made(held, asked)) == Elements(asked) - held && Distinct(Made(held, asked))
    decreases |asked|
  {
    if asked != [] {
      var first, rest := asked[0], asked[1..];
      assert Elements(asked) == Elements(rest) + {first};
      if first in held {
        MadeAre(held, rest);
      } else {
        MadeAre(held + {first}, rest);
        MadeFront(first, Made(held + {first}, rest));
      }
    }
  }

  lemma MadeFront(first: string, more: seq<string>)
    requires first !in Elements(more) && Distinct(more)
    ensures Distinct([first] + more) && Elements([first] + more) == Elements(more) + {first}
  {
    assert forall i | 0 <= i < |more| :: more[i] in Elements(more);
  }

  lemma NewFirst<V>(table: map<string, V>, first: string, transport: V, news: map<string, V>)
    requires first !in news
    ensures table[first := transport] + news == table + news[first := transport]
  {
  }

  lemma JoinNew<V>(held: map<string, V>, known: map<string, V>, orphans: map<string, V>, first: string, transport: V)
    requires held == known + orphans && first !in held
    ensures held[first := transport] == known[first := transport] + orphans
  {
  }

  /** A label is taken out of the connection's table after its listeners have been heard. */
  lemma Parted<V>(held: map<string, V>, known: map<string, V>, orphans: map<string, V>, name: string, news: map<string, V>)
    requires held == known + orphans && known.Keys !! orphans.Keys && name in known
    requires news.Keys !! held.Keys - {name}
    ensures
      var forgotten := if name in news then orphans[name := news[name]] else orphans;
      held - {name} + news == (known + news - {name}) + forgotten && (known + news - {name}).Keys !! forgotten.Keys
  {
  }

  /** What the disconnect listeners of a label open. */
  function Asks(reopens: map<string, seq<string>>, name: string): seq<string> {
    if name in reopens then reopens[name] else []
  }

  function AllAsked(reopens: map<string, seq<string>>): set<string> {
    set l, r | l in reopens.Keys && r in reopens[l] :: r
  }

  /* ------------------------------ the walk ------------------------------ */

  /** Labels new to the table are appended to the walk; those the client still holds are handed back. */
  function Grow(walk: seq<string>, asked: seq<string>, held: set<string>): (grown: seq<string>)
    ensures walk <= grown
    decreases |asked|
  {
    if asked == [] then walk
    else Grow(if asked[0] in walk || asked[0] in held then walk else walk + [asked[0]], asked[1..], held)
  }

  lemma {:induction false} Grown(walk: seq<string>, asked: seq<string>, held: set<string>)
    ensures
      var grown := Grow(walk, asked, held);
      && Elements(grown) == Elements(walk) + (Elements(asked) - held)
      && (Distinct(walk) ==> Distinct(grown))
    decreases |asked|
  {
    if asked != [] {
      var first, rest := asked[0], asked[1..];
      assert Elements(asked) == Elements(rest) + {first};
      Grown(if first in walk || first in held then walk else walk + [first], rest, held);
    }
  }

  /** What is appended are the labels for which new transports are made. */
  lemma {:induction false} GrowMakes(walk: seq<string>, asked: seq<string>, held: set<string>)
    ensures Grow(walk, asked, held) == walk + Made(Elements(walk) + held, asked)
    decreases |asked|
  {
    if asked != [] {
      var first, rest := asked[0], asked[1..];
      if first in walk || first in held {
        GrowMakes(walk, rest, held);
      } else {
        GrowMakes(walk + [first], rest, held);
        assert Elements(walk + [first]) + held == Elements(walk) + held + {first};
      }
    }
  }

  /** A listener at a label of the walk, which began with `order`, adds `made` to it. */
  ghost predicate GrowsBy(order: seq<string>, walk: seq<string>, made: seq<string>) {
    && order <= walk && Distinct(walk + made) && Elements(walk + made) == Elements(walk) + Elements(made)
    && (walk + made)[|order|..] == walk[|order|..] + made
  }

  lemma GrownBy(order: seq<string>, walk: seq<string>, asked: seq<string>, held: set<string>)
    requires order <= walk && Distinct(walk)
    ensures
      var made := Made(Elements(walk) + held, asked);
      Grow(walk, asked, held) == walk + made && GrowsBy(order, walk, made)
  {
    var made := Made(Elements(walk) + held, asked);
    Grown(walk, asked, held);
    GrowMakes(walk, asked, held);
    MadeAre(Elements(walk) + held, asked);
    hide Made, Grow, Distinct;
    assert Elements(walk + made) == Elements(walk) + Elements(made);
    assert (walk + made)[|order|..] == walk[|order|..] + made;
  }

  /** What was added to a walk is new and distinct. */
  lemma AddedAreNew(order: seq<string>, walk: seq<string>)
    requires order <= walk && Distinct(walk)
    ensures Distinct(walk[|order|..]) && forall l | l in walk[|order|..] :: l in Elements(walk) && l !in Elements(order)
  {
    var added := walk[|order|..];
    forall k | 0 <= k < |added| ensures added[k] in walk && added[k] !in order {
      assert added[k] == walk[|order| + k];
      assert forall j | 0 <= j < |order| :: order[j] == walk[j];
    }
  }

  lemma GrowEnds(walk: seq<string>, name: string, reopens: map<string, seq<string>>, held: set<string>)
    ensures
      var grown := Grow(walk, Asks(reopens, name), held);
      grown == walk || |AllAsked(reopens) - Elements(grown)| < |AllAsked(reopens) - Elements(walk)|
  {
    var asked := Asks(reopens, name);
    var grown := Grow(walk, asked, held);
    Grown(walk, asked, held);
    assert Elements(asked) <= AllAsked(reopens);
    if grown != walk {
      var l := grown[|walk|];
      GrowsByNew(walk, asked, held);
      assert l in Elements(grown) && l in AllAsked(reopens) - Elements(walk);
      Smaller(AllAsked(reopens) - Elements(grown), AllAsked(reopens) - Elements(walk), l);
    }
  }

  lemma Smaller(a: set<string>, b: set<string>, l: string)
    requires a <= b && l in b && l !in a
    ensures |a| < |b|
  {
    assert a <= b - {l};
    assert b == (b - {l} - a) + a + {l};
  }

  lemma {:induction false} GrowsByNew(walk: seq<string>, asked: seq<string>, held: set<string>)
    ensures var grown := Grow(walk, asked, held); |grown| > |walk| ==> grown[|walk|] !in walk && grown[|walk|] in asked
    decreases |asked|
  {
    if asked != [] && (asked[0] in walk || asked[0] in held) {
      GrowsByNew(walk, asked[1..], held);
    }
  }

  /**
   The labels whose transports are closed, in order, when the walk over a connection's table stands
   before `order[i]`: a table under iteration yields what is appended to it, and no key twice.
   `reopens` tells which labels the disconnect listeners of a label open, one after the other.
   */
  function Walk(order: seq<string>, i: nat, reopens: map<string, seq<string>>, held: set<string>): (walk: seq<string>)
    requires i <= |order|
    ensures order <= walk
    decreases |AllAsked(reopens) - Elements(order)|, |order| - i
  {
    if i == |order| then order
    else
      GrowEnds(order, order[i], reopens, held);
      Walk(Grow(order, Asks(reopens, order[i]), held), i + 1, reopens, held)
  }

  lemma WalkNext(walk: seq<string>, i: nat, reopens: map<string, seq<string>>, held: set<string>)
    requires i < |walk|
    ensures |walk| <= |Grow(walk, Asks(reopens, walk[i]), held)|
    ensures Walk(walk, i, reopens, held) == Walk(Grow(walk, Asks(reopens, walk[i]), held), i + 1, reopens, held)
  {
  }

  lemma WalkEnds(walk: seq<string>, reopens: map<string, seq<string>>, held: set<string>)
    ensures Walk(walk, |walk|, reopens, held) == walk
  {
  }

  /** Every label opened before step `i` is in the walk, unless the client held it. */
  ghost predicate Foreseen(walk: seq<string>, i: nat, reopens: map<string, seq<string>>, held: set<string>)
    requires i <= |walk|
  {
    forall j | 0 <= j < i :: Elements(Asks(reopens, walk[j])) <= Elements(walk) + held
  }

  /** Every label opened during the walk is closed in it, unless the client held it; none is closed twice. */
  lemma {:induction false} WalkCloses(order: seq<string>, i: nat, reopens: map<string, seq<string>>, held: set<string>)
    requires i <= |order| && Distinct(order) && Foreseen(order, i, reopens, held)
    ensures
      var walk := Walk(order, i, reopens, held);
      Distinct(walk) && Foreseen(walk, |walk|, reopens, held)
    decreases |AllAsked(reopens) - Elements(order)|, |order| - i
  {
    if i < |order| {
      var asked := Asks(reopens, order[i]);
      GrowEnds(order, order[i], reopens, held);
      Grown(order, asked, held);
      WalkCloses(Grow(order, asked, held), i + 1, reopens, held);
    }
  }

  lemma {:induction false} NothingWalked(walk: seq<string>, i: nat, held: set<string>)
    requires i <= |walk|
    ensures Walk(walk, i, map[], held) == walk
    decreases |walk| - i
  {
    if i < |walk| {
      NothingWalked(walk, i + 1, held);
    }
  }

  /* ------------------------------ what comes back ------------------------------ */

  /** The labels opened again, up to step `i` of the walk, after they had been closed in it. */
  ghost function Back(walk: seq<string>, i: nat, reopens: map<string, seq<string>>): set<string>
    requires i <= |walk|
  {
    if i == 0 then {} else Back(walk, i - 1, reopens) + Elements(Asks(reopens, walk[i - 1])) * Elements(walk[..i])
  }

  lemma {:induction false} BackGrown(walk: seq<string>, grown: seq<string>, i: nat, reopens: map<string, seq<string>>)
    requires i <= |walk| && walk <= grown
    ensures Back(grown, i, reopens) == Back(walk, i, reopens)
  {
    if i > 0 {
      BackGrown(walk, grown, i - 1, reopens);
      assert grown[..i] == walk[..i];
    }
  }

  lemma {:induction false} BackBehind(walk: seq<string>, i: nat, reopens: map<string, seq<string>>)
    requires i <= |walk|
    ensures Back(walk, i, reopens) <= Elements(walk[..i])
  {
    if i > 0 {
      BackBehind(walk, i - 1, reopens);
      assert walk[..i] == walk[..i - 1] + [walk[i - 1]];
    }
  }

  /** No label is opened again after it has been closed in the walk. */
  ghost predicate NeverBack(walk: seq<string>, reopens: map<string, seq<string>>) {
    forall i, r | 0 <= i < |walk| && r in Asks(reopens, walk[i]) :: r !in walk[..i + 1]
  }

  lemma {:induction false} BackUpTo(walk: seq<string>, i: nat, reopens: map<string, seq<string>>)
    requires i <= |walk|
    ensures Back(walk, i, reopens) == {} <==> forall j, r | 0 <= j < i && r in Asks(reopens, walk[j]) :: r !in walk[..j + 1]
  {
    if i > 0 {
      BackUpTo(walk, i - 1, reopens);
      var asked := Asks(reopens, walk[i - 1]);
      var here := Elements(asked) * Elements(walk[..i]);
      if here != {} {
        var r :| r in here;
        assert r in Asks(reopens, walk[i - 1]) && r in walk[..i - 1 + 1];
      } else {
        assert forall r | r in asked :: r !in here;
      }
    }
  }

  lemma NeverBackExactly(walk: seq<string>, reopens: map<string, seq<string>>)
    ensures NeverBack(walk, reopens) <==> Back(walk, |walk|, reopens) == {}
  {
    BackUpTo(walk, |walk|, reopens);
  }

  lemma NothingReopens(walk: seq<string>, held: set<string>)
    ensures Walk(walk, 0, map[], held) == walk && Back(walk, |walk|, map[]) == {}
  {
    NothingWalked(walk, 0, held);
    NeverBackExactly(walk, map[]);
  }

  /** A label whose own disconnect listener opens it again comes back, on any connection that has only it. */
  lemma BackToItself(name: string)
    ensures Walk([name], 0, map[name := [name]], {}) == [name] && Back([name], 1, map[name := [name]]) == {name}
  {
    WalkEnds([name], map[name := [name]], {});
    WalkNext([name], 0, map[name := [name]], {});
    assert [name][..1] == [name] && Back([name], 0, map[name := [name]]) == {};
  }

  /* ------------------------------ two tables ------------------------------ */

  /** The client holds the labels ahead, those brought back, and those the connection had forgotten before. */
  ghost predicate Shares<V>(held: map<string, V>, known: map<string, V>, behind: set<string>, ahead: set<string>,
                            back: set<string>, forgotten: set<string>)
  {
    && held.Keys == forgotten + ahead + back && known.Keys == behind + ahead
    && back <= behind && behind !! ahead && forgotten !! known.Keys
    && (forall l | l in ahead + back :: held[l] == known[l])
  }

  lemma SharesClosed<V>(held: map<string, V>, known: map<string, V>, behind: set<string>, ahead: set<string>,
                        back: set<string>, forgotten: set<string>, name: string)
    requires Shares(held, known, behind, ahead, back, forgotten) && name in ahead
    ensures Shares(held - {name}, known, behind + {name}, ahead - {name}, back, forgotten)
  {
  }

  /** One more label is opened: it is held already, or comes back from behind, or is new and goes ahead. */
  lemma SharesMade<V>(held: map<string, V>, known: map<string, V>, behind: set<string>, ahead: set<string>,
                      back: set<string>, forgotten: set<string>, made: string, transport: V)
    requires Shares(held, known, behind, ahead, back, forgotten) && made !in held
    ensures made !in forgotten
    ensures
      if made in behind then Shares(held[made := transport], known[made := transport], behind, ahead, back + {made}, forgotten)
      else Shares(held[made := transport], known[made := transport], behind, ahead + {made}, back, forgotten)
  {
  }

  /** All that a listener opens, with the new transports `news`. */
  lemma {:induction false} SharesOpened<V>(held: map<string, V>, known: map<string, V>, behind: set<string>,
      ahead: set<string>, back: set<string>, forgotten: set<string>, asked: seq<string>, news: map<string, V>)
    requires Shares(held, known, behind, ahead, back, forgotten)
    requires news.Keys == Elements(asked) - held.Keys
    ensures Shares(held + news, known + news, behind, ahead + (Elements(asked) - forgotten - behind),
                   back + Elements(asked) * behind, forgotten)
    decreases |asked|
  {
    hide Shares;
    if asked == [] {
      assert held + news == held && known + news == known;
      assert ahead + (Elements(asked) - forgotten - behind) == ahead && back + Elements(asked) * behind == back;
    } else {
      var first, rest := asked[0], asked[1..];
      assert Elements(asked) == Elements(rest) + {first};
      if first in held {
        SharesSame(held, known, behind, ahead, back, forgotten, first);
        SharesOpened(held, known, behind, ahead, back, forgotten, rest, news);
        SameSets(Elements(rest), first, behind, ahead, back, forgotten);
      } else {
        var held', known', news' := held[first := news[first]], known[first := news[first]], news - {first};
        assert held' + news' == held + news && known' + news' == known + news;
        SharesMade(held, known, behind, ahead, back, forgotten, first, news[first]);
        NewSets(Elements(rest), first, behind, ahead, back, forgotten);
        if first in behind {
          SharesOpened(held', known', behind, ahead, back + {first}, forgotten, rest, news');
        } else {
          SharesOpened(held', known', behind, ahead + {first}, back, forgotten, rest, news');
        }
      }
    }
  }

  lemma SameSets(rest: set<string>, first: string, behind: set<string>, ahead: set<string>, back: set<string>,
                 forgotten: set<string>)
    requires (first in behind ==> first in back) && (first !in behind ==> first in forgotten + ahead)
    ensures back + (rest + {first}) * behind == back + rest * behind
    ensures ahead + (rest + {first} - forgotten - behind) == ahead + (rest - forgotten - behind)
  {
  }

  lemma NewSets(rest: set<string>, first: string, behind: set<string>, ahead: set<string>, back: set<string>,
                forgotten: set<string>)
    requires first !in forgotten
    ensures
      if first in behind then
        && back + {first} + rest * behind == back + (rest + {first}) * behind
        && rest - forgotten - behind == rest + {first} - forgotten - behind
      else
        && rest * behind == (rest + {first}) * behind
        && ahead + {first} + (rest - forgotten - behind) == ahead + (rest + {first} - forgotten - behind)
  {
  }

  lemma SharesSame<V>(held: map<string, V>, known: map<string, V>, behind: set<string>, ahead: set<string>,
                      back: set<string>, forgotten: set<string>, first: string)
    requires Shares(held, known, behind, ahead, back, forgotten) && first in held
    ensures first in behind ==> first in back
    ensures first !in behind ==> first in forgotten + ahead
  {
  }

  /** Client's table and connection's table at step `i` of the walk. */
  ghost predicate Tabled<V>(held: map<string, V>, known: map<string, V>, walk: seq<string>, i: nat,
                            reopens: map<string, seq<string>>, forgotten: set<string>)
  {
    && i <= |walk| && Distinct(walk)
    && Shares(held, known, Elements(walk[..i]), Elements(walk[i..]), Back(walk, i, reopens), forgotten)
  }

  lemma Split(walk: seq<string>, i: nat)
    requires Distinct(walk) && i <= |walk|
    ensures Elements(walk[i..]) == Elements(walk) - Elements(walk[..i])
    ensures Elements(walk) == Elements(walk[..i]) + Elements(walk[i..])
  {
    assert walk == walk[..i] + walk[i..];
    forall l | l in walk[i..] ensures l !in walk[..i] {
      var k :| 0 <= k < |walk[i..]| && walk[i..][k] == l;
      assert walk[i + k] == l;
    }
  }

  /** Step `i` moves its label from ahead to behind. */
  lemma SplitNext(walk: seq<string>, i: nat)
    requires Distinct(walk) && i < |walk|
    ensures walk[i] !in walk[..i] && walk[i] in Elements(walk[i..])
    ensures Elements(walk[..i + 1]) == Elements(walk[..i]) + {walk[i]}
    ensures Elements(walk[i + 1..]) == Elements(walk[i..]) - {walk[i]}
  {
    Split(walk, i);
    Split(walk, i + 1);
    assert walk[..i + 1] == walk[..i] + [walk[i]] && walk[i..] == [walk[i]] + walk[i + 1..];
  }

  lemma BackNext(walk: seq<string>, grown: seq<string>, i: nat, reopens: map<string, seq<string>>)
    requires i < |walk| && walk <= grown
    ensures grown[..i + 1] == walk[..i + 1]
    ensures Back(grown, i + 1, reopens) == Back(walk, i, reopens) + Elements(Asks(reopens, walk[i])) * Elements(walk[..i + 1])
  {
    hide Elements, Asks;
    assert grown[..i + 1] == walk[..i + 1] && grown[i] == walk[i];
    BackGrown(walk, grown, i, reopens);
  }

  /** The walk with what the listeners of its label have added. */
  lemma GrownParts(walk: seq<string>, i: nat, reopens: map<string, seq<string>>, forgotten: set<string>)
    requires Distinct(walk) && i < |walk|
    ensures
      var asked := Elements(Asks(reopens, walk[i]));
      var grown := Grow(walk, Asks(reopens, walk[i]), forgotten);
      var behind := Elements(walk[..i + 1]);
      && Distinct(grown) && |walk| <= |grown| && Elements(grown[..i + 1]) == behind
      && Elements(grown[i + 1..]) == Elements(walk[i + 1..]) + (asked - forgotten - behind)
      && Back(grown, i + 1, reopens) == Back(walk, i, reopens) + asked * behind
  {
    hide Distinct, Grow, Elements, Asks, Back;
    var asked := Asks(reopens, walk[i]);
    var grown := Grow(walk, asked, forgotten);
    Grown(walk, asked, forgotten);
    BackNext(walk, grown, i, reopens);
    Split(walk, i + 1);
    Split(grown, i + 1);
  }

  lemma TabledStep<V>(held: map<string, V>, known: map<string, V>, walk: seq<string>, i: nat,
                      reopens: map<string, seq<string>>, forgotten: set<string>, news: map<string, V>)
    requires i < |walk| && Tabled(held, known, walk, i, reopens, forgotten)
    requires news.Keys == Elements(Asks(reopens, walk[i])) - (held.Keys - {walk[i]})
    ensures Tabled((held - {walk[i]}) + news, known + news, Grow(walk, Asks(reopens, walk[i]), forgotten), i + 1,
                   reopens, forgotten)
  {
    hide Shares, Elements, Distinct, Back, Grow;
    var behind, ahead, back := Elements(walk[..i]), Elements(walk[i..]), Back(walk, i, reopens);
    SplitNext(walk, i);
    SharesClosed(held, known, behind, ahead, back, forgotten, walk[i]);
    SharesOpened(held - {walk[i]}, known, behind + {walk[i]}, ahead - {walk[i]}, back, forgotten, Asks(reopens, walk[i]), news);
    GrownParts(walk, i, reopens, forgotten);
  }

  /** What the tables say at the label about to be closed. */
  lemma TabledHere<V>(held: map<string, V>, known: map<string, V>, walk: seq<string>, i: nat,
                      reopens: map<string, seq<string>>, forgotten: set<string>)
    requires i < |walk| && Tabled(held, known, walk, i, reopens, forgotten)
    ensures walk[i] in held && walk[i] in known && held[walk[i]] == known[walk[i]]
    ensures walk[i] !in walk[..i] && (forall l :: l in known <==> l in walk)
    ensures forall l | l in forgotten :: l in held && l != walk[i]
    ensures forall l | l in known && l !in walk[..i + 1] :: l in held && l != walk[i]
  {
    hide Back;
    SplitNext(walk, i);
    Split(walk, i);
    var behind := walk[..i + 1];
    assert forall l :: l in behind <==> l in Elements(behind);
  }

  /** What comes back at step `i` had been there, or its transport is new. */
  lemma BackGrows<V>(held: map<string, V>, known: map<string, V>, walk: seq<string>, i: nat,
                     reopens: map<string, seq<string>>, forgotten: set<string>, news: set<string>)
    requires i < |walk| && Tabled(held, known, walk, i, reopens, forgotten)
    requires news == Elements(Asks(reopens, walk[i])) - (held.Keys - {walk[i]})
    ensures forall l | l in Back(walk, i, reopens) :: l in held && l in known && held[l] == known[l] && l != walk[i]
    ensures forall l | l in Back(Grow(walk, Asks(reopens, walk[i]), forgotten), i + 1, reopens) ::
      l in Back(walk, i, reopens) || l in news
  {
    hide Distinct, Back, Grow;
    SplitNext(walk, i);
    GrownParts(walk, i, reopens, forgotten);
    BackBehind(walk, i, reopens);
  }

  /** Labels ahead of step `i` keep what the connection has for them. */
  ghost predicate Spared<V>(known: map<string, V>, known': map<string, V>, walk: seq<string>, i: nat)
    requires i < |walk|
  {
    forall l | l in known && l !in walk[..i + 1] :: l in known' && known'[l] == known[l]
  }

  /** What a step leaves alone: the labels ahead, and what the client holds beside its label. */
  lemma StepSpares<V>(held: map<string, V>, known: map<string, V>, walk: seq<string>, i: nat,
                      reopens: map<string, seq<string>>, forgotten: set<string>, news: map<string, V>)
    requires i < |walk| && Tabled(held, known, walk, i, reopens, forgotten)
    requires news.Keys == Elements(Asks(reopens, walk[i])) - (held.Keys - {walk[i]})
    ensures Spared(known, known + news, walk, i)
    ensures news.Keys !! held.Keys - {walk[i]} && walk[i] !in Back(walk, i, reopens) && walk[i] !in forgotten
    ensures Back(Grow(walk, Asks(reopens, walk[i]), forgotten), i + 1, reopens) <= Back(walk, i, reopens) + news.Keys
  {
    TabledHere(held, known, walk, i, reopens, forgotten);
    BackGrows(held, known, walk, i, reopens, forgotten, news.Keys);
    hide Tabled, Back, Grow, Elements, Asks;
  }

  /** Of the transports `was`, with these tables before and now, those behind the walk are shut and the others as they were. */
  ghost predicate ShutSoFar<V>(was: map<string, V>, views: map<string, Table>, known: map<string, V>,
                               now: map<string, Table>, walk: seq<string>, i: nat)
  {
    && i <= |walk| && was.Keys == views.Keys == now.Keys
    && (forall l | l in was && l in walk[..i] :: WasShut(views[l], now[l]))
    && (forall l | l in was && l !in walk[..i] :: now[l] == views[l] && l in known && known[l] == was[l])
  }

  lemma WalkBegins<V>(known: map<string, V>, orphans: map<string, V>, views: map<string, Table>, order: seq<string>,
                      reopens: map<string, seq<string>>)
    requires known.Keys !! orphans.Keys && known.Keys == views.Keys && Distinct(order) && Elements(order) == known.Keys
    ensures Tabled(known + orphans, known, order, 0, reopens, orphans.Keys) && ShutSoFar(known, views, known, views, order, 0)
    ensures Back(order, 0, reopens) == {}
  {
    assert order[..0] == [] && order[0..] == order;
  }

  lemma ShutHere<V>(was: map<string, V>, views: map<string, Table>, known: map<string, V>, now: map<string, Table>,
                    walk: seq<string>, i: nat)
    requires i < |walk| && ShutSoFar(was, views, known, now, walk, i) && walk[i] !in walk[..i]
    ensures walk[i] in was ==> walk[i] in known && known[walk[i]] == was[walk[i]]
  {
  }

  lemma ShutMore<V>(was: map<string, V>, views: map<string, Table>, known: map<string, V>, now: map<string, Table>,
                    walk: seq<string>, i: nat, known': map<string, V>, now': map<string, Table>, grown: seq<string>)
    requires i < |walk| && walk <= grown && ShutSoFar(was, views, known, now, walk, i) && walk[i] !in walk[..i]
    requires now'.Keys == now.Keys && (walk[i] in now ==> WasShut(now[walk[i]], now'[walk[i]]))
    requires forall l | l in now && l != walk[i] :: now'[l] == now[l]
    requires forall l | l in known && l !in walk[..i + 1] :: l in known' && known'[l] == known[l]
    ensures ShutSoFar(was, views, known', now', grown, i + 1)
  {
    hide WasShut;
    assert grown[..i + 1] == walk[..i] + [walk[i]];
    assert walk[..i + 1] == walk[..i] + [walk[i]];
  }

}
