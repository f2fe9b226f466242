/**
 Message delivery of private/logging/log_system.cpp: channels with a pending queue, a bounded history and listeners of
 their own, listeners of the whole system that may ask for the history when they register, and dispatches that snapshot
 messages and listeners under the lock and call the listeners outside it. Each method below is one locked section, or
 one call of a listener, so any order of method calls is an interleaving of the threads.
 */
module LogDelivery {
  import opened Wrappers
  import opened Deliveries

  const MAX_MESSAGES: nat := 1024

  datatype Channel = Channel(pending: seq<Message>, history: seq<Message>, listeners: seq<Listener>)

  const NEW_CHANNEL: Channel := Channel([], [], [])

  /** The histories of all channels, channel by channel. */
  function Histories(cs: seq<Channel>): (r: seq<Message>)
  {
    if cs == [] then [] else Histories(cs[..|cs| - 1]) + cs[|cs| - 1].history
  }

  lemma {:induction false} HistoriesOnChannel(cs: seq<Channel>, c: nat)
    requires forall k :: 0 <= k < |cs| ==> AllOn(cs[k].history, k)
    ensures OnChannel(Histories(cs), c) == if c < |cs| then cs[c].history else []
  {
    if cs != [] {
      var n := |cs| - 1;
      HistoriesOnChannel(cs[..n], c);
      OnChannelAppend(Histories(cs[..n]), cs[n].history, c);
      OnOwnChannel(cs[n].history, n, c);
    }
  }

  /** The tail that fits into a history. */
  function LastMessages(ms: seq<Message>): (r: seq<Message>)
  {
    if |ms| > MAX_MESSAGES then ms[|ms| - MAX_MESSAGES..] else ms
  }

  method Trim(all: seq<Message>) returns (history: seq<Message>)
    ensures history == LastMessages(all)
  {
    history := all;
    ghost var cut := 0;
    while |history| > MAX_MESSAGES
      invariant 0 <= cut <= |all| && history == all[cut..]
      invariant cut > 0 ==> |history| >= MAX_MESSAGES
    {
      history := history[1..];
      cut := cut + 1;
    }
  }

  // ---------------------------------------------------------------------------------------------------------
  // The book
  // ---------------------------------------------------------------------------------------------------------

  /** What the proofs keep book of. `moved`: per channel, everything that ever went from pending to history.
      `promised`: every call of a listener that a dispatch or a registration committed to. `replayed`: every call that
      somebody asked for with FlushTo. `scope`: per registration, its channel, or None for a listener of the system.
      `starts` and `gone`: per registration, how many messages each channel had moved where its own begin, and when it
      unregistered. */
  datatype Book = Book(
    moved: seq<seq<Message>>,
    promised: seq<Delivery>,
    replayed: seq<Delivery>,
    scope: map<Listener, Option<nat>>,
    starts: map<Listener, seq<nat>>,
    gone: map<Listener, seq<nat>>)

  const NEW_BOOK: Book := Book([], [], [], map[], map[], map[])

  /** A count per channel; a channel added later counts from 0. */
  function Count(counts: seq<nat>, c: nat): (r: nat)
  {
    if c < |counts| then counts[c] else 0
  }

  predicate InScope(b: Book, l: Listener, c: nat)
  {
    l in b.scope && (b.scope[l].None? || b.scope[l].value == c)
  }

  function From(b: Book, l: Listener, c: nat): (r: nat)
  {
    if l in b.starts then Count(b.starts[l], c) else 0
  }

  /** A registration's messages end at what was moved so far, or at what was moved when it unregistered. */
  function Until(b: Book, l: Listener, c: nat): (r: nat)
  {
    if !InScope(b, l, c) then From(b, l, c)
    else if l in b.gone then Count(b.gone[l], c)
    else if c < |b.moved| then |b.moved[c]| else 0
  }

  /** The message is one of those that the registration is to be called with. */
  predicate Due(b: Book, l: Listener, m: Message)
  {
    && l in b.starts && m.channel < |b.moved| && m.number < |b.moved[m.channel]|
    && b.moved[m.channel][m.number] == m
    && From(b, l, m.channel) <= m.number < Until(b, l, m.channel)
  }

  ghost function Lengths(moved: seq<seq<Message>>): (r: seq<nat>)
    ensures |r| == |moved| && forall c :: 0 <= c < |moved| ==> r[c] == |moved[c]|
  {
    seq(|moved|, c requires 0 <= c < |moved| => |moved[c]|)
  }

  // ---------------------------------------------------------------------------------------------------------
  // The invariant
  // ---------------------------------------------------------------------------------------------------------

  predicate Numbered(m: Message, c: nat, i: nat)
  {
    m.channel == c && m.number == i
  }

  /** Everything written to the channel is moved or pending, in order, and the history is the tail of what was moved
      that fits. */
  ghost predicate ChannelOk(x: Channel, c: nat, moved: seq<Message>)
  {
    && (forall i :: 0 <= i < |moved| ==> Numbered(moved[i], c, i))
    && (forall i :: 0 <= i < |x.pending| ==> Numbered(x.pending[i], c, |moved| + i))
    && x.history == LastMessages(moved)
  }

  ghost predicate ChannelsOk(cs: seq<Channel>, moved: seq<seq<Message>>)
  {
    |cs| == |moved| && forall c :: 0 <= c < |cs| ==> ChannelOk(cs[c], c, moved[c])
  }

  /** The registration was promised exactly the messages of one stretch of what the channel moved, each of them once,
      and nothing else. */
  ghost predicate ShareOk(b: Book, l: Listener, c: nat)
  {
    if l in b.starts && c < |b.moved| then
      From(b, l, c) <= Until(b, l, c) <= |b.moved[c]|
      && multiset(Share(b.promised, l, c)) == multiset(b.moved[c][From(b, l, c)..Until(b, l, c)])
    else Share(b.promised, l, c) == []
  }

  ghost predicate SharesOk(b: Book)
  {
    forall l: Listener, c: nat :: ShareOk(b, l, c)
  }

  predicate Open(b: Book, l: Listener)
  {
    l in b.starts && l !in b.gone
  }

  /** The listeners of the system, or of one channel, are the registrations of that scope that have not ended. */
  ghost predicate ListOk(ls: seq<Listener>, b: Book, scope: Option<nat>)
  {
    Unique(ls) && forall l: Listener :: l in ls <==> Open(b, l) && l in b.scope && b.scope[l] == scope
  }

  ghost predicate BookOk(next: Listener, b: Book)
  {
    && (forall l: Listener :: l in b.starts <==> l < next)
    && (forall l: Listener :: l in b.scope <==> l < next)
    && (forall l: Listener :: l in b.gone ==> l in b.starts)
    && (forall d :: d in b.replayed ==> d.to in b.scope && b.scope[d.to].Some?)
  }

  ghost predicate ListsOk(cs: seq<Channel>, listeners: seq<Listener>, b: Book)
  {
    ListOk(listeners, b, None) && forall c: nat :: c < |cs| ==> ListOk(cs[c].listeners, b, Some(c))
  }

  /** No registration counts channels that are not there. */
  ghost predicate CountsOk(b: Book)
  {
    && (forall l: Listener :: l in b.starts ==> |b.starts[l]| <= |b.moved|)
    && (forall l: Listener :: l in b.gone ==> |b.gone[l]| <= |b.moved|)
    && (forall l: Listener :: l in b.scope && b.scope[l].Some? ==> b.scope[l].value < |b.moved|)
  }

  ghost predicate Sound(cs: seq<Channel>, listeners: seq<Listener>, next: Listener, b: Book)
  {
    ChannelsOk(cs, b.moved) && BookOk(next, b) && ListsOk(cs, listeners, b) && CountsOk(b) && SharesOk(b)
  }

  /** The history is the last of what was moved, 1024 messages if there are so many. */
  lemma HistoryOn(x: Channel, c: nat, moved: seq<Message>)
    requires ChannelOk(x, c, moved)
    ensures |x.history| == if |moved| > 1024 then 1024 else |moved|
    ensures AllOn(x.history, c) && AllOn(x.pending, c) && |x.history| <= |moved|
    ensures x.history == moved[|moved| - |x.history|..]
  {
  }

  // ---------------------------------------------------------------------------------------------------------
  // Moving messages to history
  // ---------------------------------------------------------------------------------------------------------

  /** Moving messages of channel c to history promises each of them to every listener in the list. */
  ghost function Moved(b: Book, ls: seq<Listener>, c: nat, ms: seq<Message>): (r: Book)
    requires c < |b.moved|
  {
    b.(moved := b.moved[c := b.moved[c] + ms], promised := b.promised + Fan(ms, ls))
  }

  /** Whom a dispatch of the channel calls: its own listeners, then those of the system. */
  function Audience(x: Channel, listeners: seq<Listener>): (r: seq<Listener>)
  {
    x.listeners + listeners
  }

  lemma AudienceOk(cs: seq<Channel>, listeners: seq<Listener>, b: Book, c: nat)
    requires ListsOk(cs, listeners, b) && c < |cs|
    ensures Unique(Audience(cs[c], listeners))
    ensures forall l: Listener :: l in Audience(cs[c], listeners) <==> Open(b, l) && InScope(b, l, c)
  {
    var own := cs[c].listeners;
    assert ListOk(own, b, Some(c));
    forall i, j | 0 <= i < |own| && 0 <= j < |listeners| ensures own[i] != listeners[j] {
      assert own[i] in own && listeners[j] in listeners;
    }
  }

  lemma PendingDispatched(x: Channel, c: nat, moved: seq<Message>, listeners: seq<Listener>)
    requires ChannelOk(x, c, moved)
    ensures Dispatches(Fan(x.pending, Audience(x, listeners)), x.pending, x.listeners + listeners)
  {
    FanDispatches(x.pending, Audience(x, listeners));
  }

  /** The channel with its pending messages in its history. */
  function Emptied(x: Channel): (r: Channel)
  {
    Channel([], LastMessages(x.history + x.pending), x.listeners)
  }

  lemma ChannelMoved(x: Channel, c: nat, moved: seq<Message>)
    requires ChannelOk(x, c, moved)
    ensures ChannelOk(Emptied(x), c, moved + x.pending)
  {
    var all := moved + x.pending;
    assert LastMessages(x.history + x.pending) == LastMessages(all);
  }

  lemma StretchGrows(moved: seq<Message>, ms: seq<Message>, lo: nat, hi: nat)
    requires lo <= hi <= |moved|
    ensures (moved + ms)[lo..hi] == moved[lo..hi]
    ensures (moved + ms)[lo..|moved| + |ms|] == moved[lo..|moved|] + ms
  {
  }

  lemma MoveShare(b: Book, ls: seq<Listener>, c: nat, ms: seq<Message>, l: Listener, d: nat)
    requires c < |b.moved| && AllOn(ms, c) && Unique(ls) && ShareOk(b, l, d)
    requires l in ls <==> Open(b, l) && InScope(b, l, c)
    ensures ShareOk(Moved(b, ls, c, ms), l, d)
  {
    FanShare(b.promised, ms, ls, c, l, d);
    if l in ls && d == c {
      MoveHere(b, ls, c, ms, l);
    } else {
      assert Share(b.promised, l, d) + [] == Share(b.promised, l, d);
      MoveElsewhere(b, ls, c, ms, l, d);
    }
  }

  /** A registration that the dispatch calls has all of the new messages. */
  lemma MoveHere(b: Book, ls: seq<Listener>, c: nat, ms: seq<Message>, l: Listener)
    requires c < |b.moved| && ShareOk(b, l, c) && Open(b, l) && InScope(b, l, c)
    requires Share(Moved(b, ls, c, ms).promised, l, c) == Share(b.promised, l, c) + ms
    ensures ShareOk(Moved(b, ls, c, ms), l, c)
  {
    ShareGrows(Share(b.promised, l, c), b.moved[c], ms, From(b, l, c));
  }

  lemma ShareGrows(share: seq<Message>, moved: seq<Message>, ms: seq<Message>, lo: nat)
    requires lo <= |moved| && multiset(share) == multiset(moved[lo..|moved|])
    ensures multiset(share + ms) == multiset((moved + ms)[lo..|moved + ms|])
  {
    StretchGrows(moved, ms, lo, |moved|);
  }

  /** A registration that the dispatch does not call has no more of the channel than before. */
  lemma MoveElsewhere(b: Book, ls: seq<Listener>, c: nat, ms: seq<Message>, l: Listener, d: nat)
    requires c < |b.moved| && ShareOk(b, l, d) && (d != c || !(Open(b, l) && InScope(b, l, c)))
    requires Share(Moved(b, ls, c, ms).promised, l, d) == Share(b.promised, l, d)
    ensures ShareOk(Moved(b, ls, c, ms), l, d)
  {
    if l in b.starts && d == c { StretchGrows(b.moved[c], ms, From(b, l, c), Until(b, l, c)); }
  }

  lemma MoveAll(cs: seq<Channel>, listeners: seq<Listener>, next: Listener, b: Book, c: nat)
    requires Sound(cs, listeners, next, b) && c < |cs|
    ensures c < |b.moved|
    ensures var x := cs[c];
            Sound(cs[c := Emptied(x)], listeners, next,
                  Moved(b, Audience(x, listeners), c, x.pending))
            && Dispatches(Fan(x.pending, Audience(x, listeners)), x.pending, x.listeners + listeners)
  {
    var x, ls := cs[c], Audience(cs[c], listeners);
    assert ChannelOk(x, c, b.moved[c]);
    PendingDispatched(x, c, b.moved[c], listeners);
    HistoryOn(x, c, b.moved[c]);
    ChannelMoved(x, c, b.moved[c]);
    AudienceOk(cs, listeners, b, c);
    var b' := Moved(b, ls, c, x.pending);
    forall l: Listener, d: nat ensures ShareOk(b', l, d) {
      assert ShareOk(b, l, d);
      MoveShare(b, ls, c, x.pending, l, d);
    }
    SameLists(cs, cs[c := Emptied(x)], listeners, b, b');
  }

  /** The lists depend on nothing but who is registered where. */
  lemma SameLists(cs: seq<Channel>, cs': seq<Channel>, listeners: seq<Listener>, b: Book, b': Book)
    requires ListsOk(cs, listeners, b) && |cs| == |cs'| && b'.scope == b.scope && b'.starts == b.starts && b'.gone == b.gone
    requires forall c: nat :: c < |cs| ==> cs'[c].listeners == cs[c].listeners
    ensures ListsOk(cs', listeners, b')
  {
    forall c: nat | c < |cs'| ensures ListOk(cs'[c].listeners, b', Some(c)) { assert ListOk(cs[c].listeners, b, Some(c)); }
  }

  // ---------------------------------------------------------------------------------------------------------
  // Registering
  // ---------------------------------------------------------------------------------------------------------

  /** The number a new registration begins at in one channel. */
  function Begins(x: Channel, moved: seq<Message>, flush: bool): (r: nat)
  {
    if flush && |x.history| <= |moved| then |moved| - |x.history| else |moved|
  }

  ghost function AllBegin(cs: seq<Channel>, moved: seq<seq<Message>>, flush: bool): (r: seq<nat>)
    requires |cs| == |moved|
    ensures |r| == |cs| && forall c :: 0 <= c < |cs| ==> r[c] == Begins(cs[c], moved[c], flush)
  {
    seq(|cs|, c requires 0 <= c < |cs| => Begins(cs[c], moved[c], flush))
  }

  /** What a new listener is called with at once: all histories, by time stamp. */
  function Replay(cs: seq<Channel>, flush: bool, l: Listener): (r: seq<Delivery>)
  {
    if flush then Fan(SortByStamp(Histories(cs)), [l]) else []
  }

  /** What a listener that registers is called with: with a flush, all histories in the order of time stamps, in which
      messages of one channel and one time stamp stand as they do in the channel's history; otherwise nothing. */
  ghost predicate Replays(ds: seq<Delivery>, cs: seq<Channel>, flush: bool, l: Listener)
  {
    && AllTo(ds, l) && (!flush ==> ds == []) && InStampOrder(Messages(ds))
    && (flush ==> forall t :: AtStamp(Messages(ds), t) == AtStamp(Histories(cs), t))
    && (flush ==> forall c: nat, t: int ::
          OnChannel(AtStamp(Messages(ds), t), c) == if c < |cs| then AtStamp(cs[c].history, t) else [])
  }

  lemma ReplayMeaning(cs: seq<Channel>, flush: bool, l: Listener)
    requires forall k :: 0 <= k < |cs| ==> AllOn(cs[k].history, k)
    ensures Replays(Replay(cs, flush, l), cs, flush, l)
  {
    if flush {
      var ms := SortByStamp(Histories(cs));
      FanToOne(ms, l);
      SortIsStable(Histories(cs), 0);
      forall t ensures AtStamp(ms, t) == AtStamp(Histories(cs), t) { SortIsStable(Histories(cs), t); }
      forall c: nat, t: int ensures OnChannel(AtStamp(ms, t), c) == if c < |cs| then AtStamp(cs[c].history, t) else [] {
        ReplayOnChannel(cs, c, t);
      }
    }
  }

  lemma ReplayOnChannel(cs: seq<Channel>, c: nat, t: int)
    requires forall k :: 0 <= k < |cs| ==> AllOn(cs[k].history, k)
    ensures OnChannel(AtStamp(SortByStamp(Histories(cs)), t), c) == if c < |cs| then AtStamp(cs[c].history, t) else []
  {
    SortIsStable(Histories(cs), t);
    OnChannelAtStamp(Histories(cs), c, t);
    HistoriesOnChannel(cs, c);
  }

  /** A new registration is promised the histories, if it asks for them, and begins where they begin. */
  ghost function Registered(b: Book, cs: seq<Channel>, l: Listener, scope: Option<nat>, flush: bool): (r: Book)
    requires |cs| == |b.moved|
  {
    b.(promised := b.promised + Replay(cs, flush, l), scope := b.scope[l := scope],
       starts := b.starts[l := AllBegin(cs, b.moved, flush)])
  }

  lemma HistoriesStayHome(cs: seq<Channel>, moved: seq<seq<Message>>)
    requires ChannelsOk(cs, moved)
    ensures forall k :: 0 <= k < |cs| ==> AllOn(cs[k].history, k)
  {
    forall k | 0 <= k < |cs| ensures AllOn(cs[k].history, k) { HistoryOn(cs[k], k, moved[k]); }
  }

  lemma HistoryIsTail(x: Channel, d: nat, moved: seq<Message>)
    requires ChannelOk(x, d, moved)
    ensures x.history == moved[Begins(x, moved, true)..|moved|]
  {
    HistoryOn(x, d, moved);
  }

  lemma HistoryOf(cs: seq<Channel>, moved: seq<seq<Message>>, d: nat)
    requires ChannelsOk(cs, moved)
    ensures OnChannel(Histories(cs), d) == if d < |moved| then moved[d][Begins(cs[d], moved[d], true)..|moved[d]|] else []
  {
    HistoriesStayHome(cs, moved);
    HistoriesOnChannel(cs, d);
    if d < |cs| { HistoryIsTail(cs[d], d, moved[d]); }
  }

  lemma ReplayOther(promised: seq<Delivery>, cs: seq<Channel>, flush: bool, next: Listener, l: Listener, d: nat)
    requires l != next
    ensures Share(promised + Replay(cs, flush, next), l, d) == Share(promised, l, d)
  {
    if flush {
      var ms := SortByStamp(Histories(cs));
      ShareAppend(promised, Fan(ms, [next]), l, d);
      ShareOfFan(ms, [next], l, d);
      assert Share(promised, l, d) + [] == Share(promised, l, d);
    } else {
      assert promised + [] == promised;
    }
  }

  lemma ReplayOwn(promised: seq<Delivery>, moved: seq<seq<Message>>, cs: seq<Channel>, flush: bool, l: Listener, d: nat)
    requires ChannelsOk(cs, moved) && Share(promised, l, d) == []
    ensures multiset(Share(promised + Replay(cs, flush, l), l, d)) ==
              if d < |moved| then multiset(moved[d][Begins(cs[d], moved[d], flush)..|moved[d]|]) else multiset{}
  {
    if flush {
      var ms := SortByStamp(Histories(cs));
      ShareAppend(promised, Fan(ms, [l]), l, d);
      ShareOfFan(ms, [l], l, d);
      assert [] + OnChannel(ms, d) == OnChannel(ms, d);
      SortOnChannel(Histories(cs), d);
      HistoryOf(cs, moved, d);
    } else {
      assert promised + [] == promised;
    }
  }

  lemma EmptyMultiset(ms: seq<Message>)
    requires multiset(ms) == multiset{}
    ensures ms == []
  {
    assert |ms| == |multiset(ms)|;
  }

  lemma BeginShare(b: Book, cs: seq<Channel>, next: Listener, scope: Option<nat>, flush: bool, l: Listener, d: nat)
    requires ChannelsOk(cs, b.moved) && next !in b.starts && next !in b.gone && ShareOk(b, l, d)
    requires flush ==> scope.None?
    ensures ShareOk(Registered(b, cs, next, scope, flush), l, d)
  {
    if l == next {
      ReplayOwn(b.promised, b.moved, cs, flush, l, d);
      BeginOwn(b, cs, next, scope, flush, d);
    } else {
      ReplayOther(b.promised, cs, flush, next, l, d);
    }
  }

  lemma BeginOwn(b: Book, cs: seq<Channel>, next: Listener, scope: Option<nat>, flush: bool, d: nat)
    requires |cs| == |b.moved| && next !in b.gone && (flush ==> scope.None?)
    requires multiset(Share(b.promised + Replay(cs, flush, next), next, d)) ==
               if d < |b.moved| then multiset(b.moved[d][Begins(cs[d], b.moved[d], flush)..|b.moved[d]|]) else multiset{}
    ensures ShareOk(Registered(b, cs, next, scope, flush), next, d)
  {
    var share := Share(b.promised + Replay(cs, flush, next), next, d);
    if d >= |b.moved| {
      EmptyMultiset(share);
    } else if !flush {
      assert b.moved[d][|b.moved[d]|..|b.moved[d]|] == [];
    }
  }

  lemma Joins(ls: seq<Listener>, b: Book, scope: Option<nat>, next: Listener, cs: seq<Channel>, own: Option<nat>, flush: bool)
    requires ListOk(ls, b, scope) && |cs| == |b.moved| && next !in b.starts && next !in b.gone
    ensures ListOk(if own == scope then ls + [next] else ls, Registered(b, cs, next, own, flush), scope)
  {
    assert next !in ls;
  }

  /** A new registration in its scope keeps everything. */
  lemma RegisterBook(cs: seq<Channel>, listeners: seq<Listener>, next: Listener, b: Book, scope: Option<nat>, flush: bool)
    requires Sound(cs, listeners, next, b) && (flush ==> scope.None?) && (scope.Some? ==> scope.value < |cs|)
    ensures |cs| == |b.moved|
    ensures var b' := Registered(b, cs, next, scope, flush);
            BookOk(next + 1, b') && CountsOk(b') && SharesOk(b')
  {
    var b' := Registered(b, cs, next, scope, flush);
    forall l: Listener, d: nat ensures ShareOk(b', l, d) {
      assert ShareOk(b, l, d);
      BeginShare(b, cs, next, scope, flush, l, d);
    }
  }

  lemma RegisterAll(cs: seq<Channel>, listeners: seq<Listener>, next: Listener, b: Book, flush: bool)
    requires Sound(cs, listeners, next, b)
    ensures |cs| == |b.moved| && Sound(cs, listeners + [next], next + 1, Registered(b, cs, next, None, flush))
  {
    RegisterBook(cs, listeners, next, b, None, flush);
    Joins(listeners, b, None, next, cs, None, flush);
    forall c: nat | c < |cs| ensures ListOk(cs[c].listeners, Registered(b, cs, next, None, flush), Some(c)) {
      Joins(cs[c].listeners, b, Some(c), next, cs, None, flush);
    }
  }

  function WithListeners(cs: seq<Channel>, c: nat, ls: seq<Listener>): (r: seq<Channel>)
    requires c < |cs|
  {
    cs[c := cs[c].(listeners := ls)]
  }

  lemma RegisterOn(cs: seq<Channel>, listeners: seq<Listener>, next: Listener, b: Book, c: nat)
    requires Sound(cs, listeners, next, b) && c < |cs|
    ensures |cs| == |b.moved|
    ensures Sound(WithListeners(cs, c, cs[c].listeners + [next]), listeners, next + 1,
                  Registered(b, cs, next, Some(c), false))
  {
    var b', cs' := Registered(b, cs, next, Some(c), false), WithListeners(cs, c, cs[c].listeners + [next]);
    RegisterBook(cs, listeners, next, b, Some(c), false);
    Joins(listeners, b, None, next, cs, Some(c), false);
    forall k: nat | k < |cs'| ensures ListOk(cs'[k].listeners, b', Some(k)) {
      Joins(cs[k].listeners, b, Some(k), next, cs, Some(c), false);
    }
    SameChannels(cs, c, cs[c].listeners + [next], b.moved);
  }

  lemma SameChannels(cs: seq<Channel>, c: nat, ls: seq<Listener>, moved: seq<seq<Message>>)
    requires ChannelsOk(cs, moved) && c < |cs|
    ensures ChannelsOk(WithListeners(cs, c, ls), moved)
  {
    forall k | 0 <= k < |cs| ensures ChannelOk(WithListeners(cs, c, ls)[k], k, moved[k]) {
      assert ChannelOk(cs[k], k, moved[k]);
    }
  }

  // ---------------------------------------------------------------------------------------------------------
  // Unregistering
  // ---------------------------------------------------------------------------------------------------------

  /** A listener that leaves keeps what it was promised. */
  ghost function Unregistered(b: Book, l: Listener): (r: Book)
  {
    b.(gone := b.gone[l := Lengths(b.moved)])
  }

  function Without(ls: seq<Listener>, k: nat): (r: seq<Listener>)
    requires k < |ls|
  {
    ls[..k] + ls[k + 1..]
  }

  /** The listener is gone, if it was there, and the others stand as before. */
  ghost predicate LeftBy(ls: seq<Listener>, l: Listener, ls': seq<Listener>)
  {
    && (forall x :: x in ls' <==> x in ls && x != l)
    && (forall i, j :: 0 <= i < j < |ls'| ==> Before(ls, ls'[i], ls'[j]))
  }

  ghost predicate Before(ls: seq<Listener>, x: Listener, y: Listener)
  {
    exists i, j :: 0 <= i < j < |ls| && ls[i] == x && ls[j] == y
  }

  lemma LeftAt(ls: seq<Listener>, k: nat)
    requires Unique(ls) && k < |ls|
    ensures LeftBy(ls, ls[k], Without(ls, k))
  {
    var r := Without(ls, k);
    LeavesOthers(ls, k);
    forall i, j | 0 <= i < j < |r| ensures Before(ls, r[i], r[j]) {
      var a, b := if i < k then i else i + 1, if j < k then j else j + 1;
      assert ls[a] == r[i] && ls[b] == r[j];
    }
  }

  lemma NotThere(ls: seq<Listener>, l: Listener)
    requires l !in ls
    ensures LeftBy(ls, l, ls)
  {
    forall i, j | 0 <= i < j < |ls| ensures Before(ls, ls[i], ls[j]) {}
  }

  lemma UnregisterBook(next: Listener, b: Book, l: Listener)
    requires BookOk(next, b) && CountsOk(b) && SharesOk(b) && Open(b, l)
    ensures var b' := Unregistered(b, l); BookOk(next, b') && CountsOk(b') && SharesOk(b')
  {
    var b' := Unregistered(b, l);
    forall x: Listener, d: nat ensures ShareOk(b', x, d) { assert ShareOk(b, x, d); }
  }

  lemma Leaves(ls: seq<Listener>, b: Book, scope: Option<nat>, l: Listener)
    requires ListOk(ls, b, scope) && l !in ls
    ensures ListOk(ls, Unregistered(b, l), scope)
  {
  }

  lemma LeavesOwn(ls: seq<Listener>, b: Book, scope: Option<nat>, k: nat)
    requires ListOk(ls, b, scope) && k < |ls|
    ensures ListOk(Without(ls, k), Unregistered(b, ls[k]), scope)
  {
    LeavesOthers(ls, k);
    var r, b' := Without(ls, k), Unregistered(b, ls[k]);
    forall x: Listener ensures x in r <==> Open(b', x) && x in b'.scope && b'.scope[x] == scope {
      assert x in r <==> x in ls && x != ls[k];
      assert Open(b', x) <==> Open(b, x) && x != ls[k];
    }
  }

  lemma UnregisterAll(cs: seq<Channel>, listeners: seq<Listener>, next: Listener, b: Book, k: nat)
    requires Sound(cs, listeners, next, b) && k < |listeners|
    ensures Sound(cs, Without(listeners, k), next, Unregistered(b, listeners[k]))
  {
    var l := listeners[k];
    assert l in listeners;
    UnregisterBook(next, b, l);
    LeavesOwn(listeners, b, None, k);
    forall c: nat | c < |cs| ensures ListOk(cs[c].listeners, Unregistered(b, l), Some(c)) {
      assert ListOk(cs[c].listeners, b, Some(c));
      Leaves(cs[c].listeners, b, Some(c), l);
    }
  }

  lemma UnregisterOn(cs: seq<Channel>, listeners: seq<Listener>, next: Listener, b: Book, c: nat, k: nat)
    requires Sound(cs, listeners, next, b) && c < |cs| && k < |cs[c].listeners|
    ensures Sound(WithListeners(cs, c, Without(cs[c].listeners, k)), listeners, next, Unregistered(b, cs[c].listeners[k]))
  {
    var own := cs[c].listeners;
    var l := own[k];
    assert ListOk(own, b, Some(c)) && l in own;
    UnregisterBook(next, b, l);
    Leaves(listeners, b, None, l);
    var b', cs' := Unregistered(b, l), WithListeners(cs, c, Without(own, k));
    forall d: nat | d < |cs'| ensures ListOk(cs'[d].listeners, b', Some(d)) {
      assert ListOk(cs[d].listeners, b, Some(d));
      if d == c { LeavesOwn(own, b, Some(c), k); } else { Leaves(cs[d].listeners, b, Some(d), l); }
    }
    SameChannels(cs, c, Without(own, k), b.moved);
  }

  // ---------------------------------------------------------------------------------------------------------
  // New channels, and a replay on request
  // ---------------------------------------------------------------------------------------------------------

  lemma AddAll(cs: seq<Channel>, listeners: seq<Listener>, next: Listener, b: Book)
    requires Sound(cs, listeners, next, b)
    ensures Sound(cs + [NEW_CHANNEL], listeners, next, b.(moved := b.moved + [[]]))
  {
    var b', cs' := b.(moved := b.moved + [[]]), cs + [NEW_CHANNEL];
    forall l: Listener, d: nat ensures ShareOk(b', l, d) { assert ShareOk(b, l, d); }
    forall c: nat | c < |cs'| ensures ListOk(cs'[c].listeners, b', Some(c)) {
      if c < |cs| { assert ListOk(cs[c].listeners, b, Some(c)); }
    }
    forall c: nat | c < |cs'| ensures ChannelOk(cs'[c], c, b'.moved[c]) {
      if c < |cs| { assert ChannelOk(cs[c], c, b.moved[c]); }
    }
  }

  /** A listener of the channel gets its history, in order, and anybody else nothing. */
  ghost predicate Flushes(calls: seq<Delivery>, x: Channel, l: Listener)
  {
    AllTo(calls, l) && Messages(calls) == if l in x.listeners then x.history else []
  }

  function Flushed(x: Channel, l: Listener): (r: seq<Delivery>)
  {
    if l in x.listeners then Fan(x.history, [l]) else []
  }

  lemma FlushedMeaning(x: Channel, l: Listener)
    ensures Flushes(Flushed(x, l), x, l)
  {
    if l in x.listeners { FanToOne(x.history, l); }
  }

  lemma ReplayedAll(
    cs: seq<Channel>, listeners: seq<Listener>, next: Listener, b: Book, c: nat, l: Listener, calls: seq<Delivery>)
    requires Sound(cs, listeners, next, b) && c < |cs| && AllTo(calls, l) && (calls != [] ==> l in cs[c].listeners)
    ensures Sound(cs, listeners, next, b.(replayed := b.replayed + calls))
  {
    var b' := b.(replayed := b.replayed + calls);
    assert ListOk(cs[c].listeners, b, Some(c));
    forall d | d in b'.replayed ensures d.to in b'.scope && b'.scope[d.to].Some? {
      if d !in b.replayed { assert d in calls; }
    }
    forall x: Listener, d: nat ensures ShareOk(b', x, d) { assert ShareOk(b, x, d); }
    SameLists(cs, cs, listeners, b, b');
  }

  lemma FlushedAll(
    cs: seq<Channel>, listeners: seq<Listener>, next: Listener, b: Book, delivered: seq<Delivery>,
    tasks: seq<seq<Delivery>>, c: nat, l: Listener, calls: seq<Delivery>)
    requires Sound(cs, listeners, next, b) && Balanced(b.promised + b.replayed, delivered, tasks)
    requires c < |cs| && calls == Flushed(cs[c], l)
    ensures Flushes(calls, cs[c], l)
    ensures var b' := b.(replayed := b.replayed + calls);
            Sound(cs, listeners, next, b') && Balanced(b'.promised + b'.replayed, delivered + calls, tasks)
  {
    FlushedMeaning(cs[c], l);
    ReplayedAll(cs, listeners, next, b, c, l, calls);
    Answer(b.promised, b.replayed, delivered, tasks, calls);
  }

  // ---------------------------------------------------------------------------------------------------------
  // The log system
  // ---------------------------------------------------------------------------------------------------------

  class LogSystem {
    var channels: seq<Channel>
    var listeners: seq<Listener>
    var nextListener: Listener
    var tasks: seq<seq<Delivery>>   // calls that a thread still has to make, outside the lock
    var delivered: seq<Delivery>    // calls made
    ghost var book: Book

    ghost predicate Valid()
      reads this
    {
      Sound(channels, listeners, nextListener, book) && Balanced(book.promised + book.replayed, delivered, tasks)
    }

    constructor ()
      ensures Valid() && channels == [] && listeners == [] && delivered == [] && tasks == [] && book == NEW_BOOK
    {
      channels, listeners, nextListener, tasks, delivered := [], [], 0, [], [];
      book := NEW_BOOK;
    }

    method AddChannel()
      requires Valid()
      modifies `channels, `book
      ensures Valid() && channels == old(channels) + [NEW_CHANNEL]
      ensures book == old(book).(moved := old(book).moved + [[]])
    {
      AddAll(channels, listeners, nextListener, book);
      channels := channels + [NEW_CHANNEL];
      book := book.(moved := book.moved + [[]]);
    }

    /** The number the next message of the channel gets. */
    function MessagesSoFar(c: nat): (r: nat)
      requires Valid() && c < |channels|
      reads this
      ensures r == |book.moved[c]| + |channels[c].pending|
    {
      assert ChannelOk(channels[c], c, book.moved[c]);
      if channels[c].pending != [] then
        channels[c].pending[0].number + |channels[c].pending|
      else if channels[c].history != [] then
        assert channels[c].history[|channels[c].history| - 1] == book.moved[c][|book.moved[c]| - 1];
        channels[c].history[|channels[c].history| - 1].number + 1
      else 0
    }

    /** Write, for a message that has the listeners among its targets: queued, and nothing else. `now` is the clock. */
    method Write(c: nat, now: int)
      requires Valid() && c < |channels|
      modifies `channels
      ensures Valid()
      ensures var x := old(channels)[c];
              channels == old(channels)[c := x.(pending := x.pending + [Message(c, |book.moved[c]| + |x.pending|, now)])]
    {
      WriteOne(channels, listeners, nextListener, book, c, now);
      var m := Message(c, MessagesSoFar(c), now);
      channels := channels[c := channels[c].(pending := channels[c].pending + [m])];
    }

    /** The locked half of DispatchPending: the pending messages become history, trimmed to its bound, and the calls
        to the listeners registered at this moment are what the dispatching thread goes on to make. */
    method DispatchPending(c: nat) returns (ghost task: seq<Delivery>)
      requires Valid() && c < |channels|
      modifies `channels, `tasks, `book
      ensures Valid() && c < |old(book).moved|
      ensures var x := old(channels)[c];
              && channels == old(channels)[c := Emptied(x)]
              && tasks == old(tasks) + [task] && Dispatches(task, x.pending, x.listeners + listeners)
              && book == Moved(old(book), Audience(x, listeners), c, x.pending)
    {
      var x := channels[c];
      task := Fan(x.pending, Audience(x, listeners));
      DispatchedAll(channels, listeners, nextListener, book, delivered, tasks, c, task);
      book := Moved(book, Audience(x, listeners), c, x.pending);
      var history := Trim(x.history + x.pending);
      channels := channels[c := Channel([], history, x.listeners)];
      tasks := tasks + [Fan(x.pending, Audience(x, listeners))];
    }

    /** The locked half of the system's RegisterListener. */
    method RegisterListener(flush: bool) returns (l: Listener, ghost task: seq<Delivery>)
      requires Valid()
      modifies `listeners, `nextListener, `tasks, `book
      ensures Valid() && l == old(nextListener) && listeners == old(listeners) + [l] && |channels| == |old(book).moved|
      ensures book == Registered(old(book), channels, l, None, flush)
      ensures tasks == old(tasks) + [task] && Replays(task, channels, flush, l)
    {
      l, task := nextListener, Replay(channels, flush, nextListener);
      HistoriesStayHome(channels, book.moved);
      ReplayMeaning(channels, flush, l);
      RegisterAll(channels, listeners, nextListener, book, flush);
      Promise(book.promised, book.replayed, delivered, tasks, Replay(channels, flush, l));
      listeners, nextListener := listeners + [l], nextListener + 1;
      book := Registered(book, channels, l, None, flush);
      tasks := tasks + [Replay(channels, flush, l)];
    }

    method UnregisterListener(l: Listener)
      requires Valid()
      modifies `listeners, `book
      ensures Valid() && LeftBy(old(listeners), l, listeners)
      ensures book == if l in old(listeners) then Unregistered(old(book), l) else old(book)
    {
      if l in listeners {
        var k :| 0 <= k < |listeners| && listeners[k] == l;
        UnregisterAll(channels, listeners, nextListener, book, k);
        LeavesOthers(listeners, k);
        LeftAt(listeners, k);
        listeners := Without(listeners, k);
        book := Unregistered(book, l);
      } else {
        NotThere(listeners, l);
      }
    }

    /** A channel's own RegisterListener, which replays nothing. */
    method RegisterChannelListener(c: nat) returns (l: Listener)
      requires Valid() && c < |channels|
      modifies `channels, `nextListener, `book
      ensures Valid() && l == old(nextListener) && |old(channels)| == |old(book).moved|
      ensures channels == WithListeners(old(channels), c, old(channels)[c].listeners + [l])
      ensures book == Registered(old(book), old(channels), l, Some(c), false)
    {
      l := nextListener;
      RegisterOn(channels, listeners, nextListener, book, c);
      assert book.promised + [] == book.promised;
      book := Registered(book, channels, l, Some(c), false);
      channels := WithListeners(channels, c, channels[c].listeners + [l]);
      nextListener := nextListener + 1;
    }

    method UnregisterChannelListener(c: nat, l: Listener)
      requires Valid() && c < |channels|
      modifies `channels, `book
      ensures Valid() && |channels| == |old(channels)|
      ensures LeftBy(old(channels)[c].listeners, l, channels[c].listeners)
      ensures channels == WithListeners(old(channels), c, channels[c].listeners)
      ensures book == if l in old(channels)[c].listeners then Unregistered(old(book), l) else old(book)
    {
      var own := channels[c].listeners;
      if l in own {
        var k :| 0 <= k < |own| && own[k] == l;
        assert ListOk(own, book, Some(c));
        UnregisterOn(channels, listeners, nextListener, book, c, k);
        LeavesOthers(own, k);
        LeftAt(own, k);
        channels := WithListeners(channels, c, Without(own, k));
        book := Unregistered(book, l);
      } else {
        NotThere(own, l);
      }
    }

    /** FlushTo: a listener of the channel, and nobody else, is called with the channel's history, under the lock. */
    method FlushTo(c: nat, l: Listener) returns (ghost calls: seq<Delivery>)
      requires Valid() && c < |channels|
      modifies `delivered, `book
      ensures Valid()
      ensures Flushes(calls, channels[c], l)
      ensures delivered == old(delivered) + calls && book == old(book).(replayed := old(book).replayed + calls)
    {
      calls := Flushed(channels[c], l);
      FlushedAll(channels, listeners, nextListener, book, delivered, tasks, c, l, calls);
      delivered := delivered + Flushed(channels[c], l);
      book := book.(replayed := book.replayed + calls);
    }

    /** One call of a listener. */
    method Deliver(k: nat)
      requires Valid() && k < |tasks| && tasks[k] != []
      modifies `tasks, `delivered
      ensures Valid() && delivered == old(delivered) + [old(tasks)[k][0]] && tasks == old(tasks)[k := old(tasks)[k][1..]]
    {
      BagTake(tasks, k);
      delivered := delivered + [tasks[k][0]];
      tasks := tasks[k := tasks[k][1..]];
    }
  }

  lemma WriteOne(cs: seq<Channel>, listeners: seq<Listener>, next: Listener, b: Book, c: nat, now: int)
    requires Sound(cs, listeners, next, b) && c < |cs|
    ensures c < |b.moved|
    ensures var x := cs[c];
            Sound(cs[c := x.(pending := x.pending + [Message(c, |b.moved[c]| + |x.pending|, now)])], listeners, next, b)
  {
    var x := cs[c];
    var cs' := cs[c := x.(pending := x.pending + [Message(c, |b.moved[c]| + |x.pending|, now)])];
    forall k: nat | k < |cs'| ensures ChannelOk(cs'[k], k, b.moved[k]) { assert ChannelOk(cs[k], k, b.moved[k]); }
    SameLists(cs, cs', listeners, b, b);
  }

  /** A thread that commits to calls owes them. */
  lemma Promise(
    promised: seq<Delivery>, replayed: seq<Delivery>, delivered: seq<Delivery>, tasks: seq<seq<Delivery>>, task: seq<Delivery>)
    requires Balanced(promised + replayed, delivered, tasks)
    ensures Balanced(promised + task + replayed, delivered, tasks + [task])
  {
    assert (tasks + [task])[..|tasks|] == tasks;
    assert multiset(promised + task + replayed) == multiset(promised + replayed) + multiset(task);
  }

  lemma DispatchedAll(
    cs: seq<Channel>, listeners: seq<Listener>, next: Listener, b: Book, delivered: seq<Delivery>,
    tasks: seq<seq<Delivery>>, c: nat, task: seq<Delivery>)
    requires Sound(cs, listeners, next, b) && Balanced(b.promised + b.replayed, delivered, tasks)
    requires c < |cs| && task == Fan(cs[c].pending, Audience(cs[c], listeners))
    ensures c < |b.moved| && Dispatches(task, cs[c].pending, cs[c].listeners + listeners)
    ensures var b' := Moved(b, Audience(cs[c], listeners), c, cs[c].pending);
            && Sound(cs[c := Emptied(cs[c])], listeners, next, b')
            && Balanced(b'.promised + b'.replayed, delivered, tasks + [task])
  {
    MoveAll(cs, listeners, next, b, c);
    Promise(b.promised, b.replayed, delivered, tasks, task);
  }

  /** Calls made at once are owed to nobody. */
  lemma Answer(
    promised: seq<Delivery>, replayed: seq<Delivery>, delivered: seq<Delivery>, tasks: seq<seq<Delivery>>, calls: seq<Delivery>)
    requires Balanced(promised + replayed, delivered, tasks)
    ensures Balanced(promised + (replayed + calls), delivered + calls, tasks)
  {
    assert multiset(promised + (replayed + calls)) == multiset(promised + replayed) + multiset(calls);
  }

  // ---------------------------------------------------------------------------------------------------------
  // Exactly once
  // ---------------------------------------------------------------------------------------------------------

  lemma {:induction false} StretchCount(moved: seq<Message>, c: nat, lo: nat, hi: nat, m: Message)
    requires lo <= hi <= |moved| && forall k :: 0 <= k < |moved| ==> Numbered(moved[k], c, k)
    ensures multiset(moved[lo..hi])[m] == if lo <= m.number < hi && moved[m.number] == m then 1 else 0
    decreases hi
  {
    if lo < hi {
      StretchCount(moved, c, lo, hi - 1, m);
      assert moved[lo..hi] == moved[lo..hi - 1] + [moved[hi - 1]];
    }
  }

  /** Any registration was promised any message once if it is due to it and never otherwise. */
  lemma PromisedOnce(cs: seq<Channel>, listeners: seq<Listener>, next: Listener, b: Book, l: Listener, m: Message)
    requires Sound(cs, listeners, next, b)
    ensures multiset(b.promised)[Delivery(l, m)] == if Due(b, l, m) then 1 else 0
  {
    var c := m.channel;
    assert ShareOk(b, l, c);
    ShareCount(b.promised, l, m);
    if l in b.starts && c < |b.moved| {
      assert ChannelOk(cs[c], c, b.moved[c]);
      StretchCount(b.moved[c], c, From(b, l, c), Until(b, l, c), m);
    }
  }

  /** Exactly once: for any listener and any message, of whatever channel, pending ones included, the calls made and
      those still to be made are one if the message was in history when the listener registered with a flush or was
      moved while it was registered for the channel, and none otherwise, besides what somebody asked FlushTo for. A
      listener of the system gets nothing by FlushTo. */
  lemma ExactlyOnce(
    cs: seq<Channel>, listeners: seq<Listener>, next: Listener, b: Book, delivered: seq<Delivery>,
    tasks: seq<seq<Delivery>>, l: Listener, m: Message)
    requires Sound(cs, listeners, next, b) && Balanced(b.promised + b.replayed, delivered, tasks)
    ensures var d := Delivery(l, m);
            multiset(delivered)[d] + Bag(tasks)[d] == multiset(b.replayed)[d] + if Due(b, l, m) then 1 else 0
    ensures l in b.scope && b.scope[l].None? ==> multiset(b.replayed)[Delivery(l, m)] == 0
  {
    var d := Delivery(l, m);
    PromisedOnce(cs, listeners, next, b, l, m);
    assert multiset(b.promised + b.replayed)[d] == multiset(delivered)[d] + Bag(tasks)[d];
    if d in b.replayed { assert b.scope[d.to].Some?; }
  }

  /** What is still pending was delivered to nobody and is owed to nobody. */
  lemma PendingIsNotDue(cs: seq<Channel>, listeners: seq<Listener>, next: Listener, b: Book, l: Listener, c: nat, k: nat)
    requires Sound(cs, listeners, next, b) && c < |cs| && k < |cs[c].pending|
    ensures !Due(b, l, cs[c].pending[k])
  {
    assert ChannelOk(cs[c], c, b.moved[c]);
    assert Numbered(cs[c].pending[k], c, |b.moved[c]| + k);
  }
}
