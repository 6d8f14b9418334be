/**
 Publish and subscribe: PubSubManager of one worker (src/astra/server/worker.hpp). Channel and pattern
 subscriptions are kept the same way, each in two maps that mirror each other: who subscribed to a
 name, and what a connection subscribed to.
 */
module PubSub {
  import opened Glob

  type Conn = nat

  /** channel_subscribers_ with conn_channels_, or pattern_subscribers_ with conn_patterns_. */
  datatype Index = Index(byName: map<string, set<Conn>>, byConn: map<Conn, set<string>>)

  const NO_SUBSCRIPTIONS := Index(map[], map[])

  predicate Subscribed(x: Index, conn: Conn, name: string) { name in x.byName && conn in x.byName[name] }

  predicate Listed(x: Index, conn: Conn, name: string) { conn in x.byConn && name in x.byConn[conn] }

  /** The maps mirror each other, and no name without subscribers is kept. */
  ghost predicate Mirrored(x: Index) {
    && (forall conn, name :: Subscribed(x, conn, name) <==> Listed(x, conn, name))
    && (forall name | name in x.byName :: x.byName[name] != {})
  }

  function SetOf<K, V>(m: map<K, set<V>>, k: K): set<V> { if k in m then m[k] else {} }

  function WithName(x: Index, conn: Conn, name: string): Index {
    Index(x.byName[name := SetOf(x.byName, name) + {conn}], x.byConn[conn := SetOf(x.byConn, conn) + {name}])
  }

  function WithoutName(x: Index, conn: Conn, name: string): Index {
    var left := SetOf(x.byName, name) - {conn};
    Index(if left == {} then x.byName - {name} else x.byName[name := left],
          x.byConn[conn := SetOf(x.byConn, conn) - {name}])
  }

  lemma AddMirrors(x: Index, conn: Conn, name: string)
    requires Mirrored(x)
    ensures Mirrored(WithName(x, conn, name))
    ensures forall c, n ::
      Subscribed(WithName(x, conn, name), c, n) <==> Subscribed(x, c, n) || (c == conn && n == name)
  {
    var t := WithName(x, conn, name);
    forall c, n ensures Subscribed(t, c, n) <==> Listed(t, c, n) {
      assert Subscribed(x, c, n) <==> Listed(x, c, n);
    }
  }

  lemma RemoveMirrors(x: Index, conn: Conn, name: string)
    requires Mirrored(x)
    ensures Mirrored(WithoutName(x, conn, name))
    ensures forall c, n ::
      Subscribed(WithoutName(x, conn, name), c, n) <==> Subscribed(x, c, n) && !(c == conn && n == name)
  {
    var t := WithoutName(x, conn, name);
    var left := SetOf(x.byName, name) - {conn};
    forall c, n ensures Subscribed(t, c, n) <==> Listed(t, c, n) {
      assert Subscribed(x, c, n) <==> Listed(x, c, n);
      assert c in left <==> c != conn && Subscribed(x, c, name);
      assert n == name ==> (Subscribed(t, c, n) <==> c in left);
    }
  }

  /** Empty entries of connections are neither here nor there. */
  lemma EmptyEntriesDoNotCount(x: Index, t: Index)
    requires Mirrored(x) && t.byName == x.byName && forall c :: SetOf(t.byConn, c) == SetOf(x.byConn, c)
    ensures Mirrored(t)
  {
    forall c, n ensures Subscribed(t, c, n) <==> Listed(t, c, n) {
      assert Subscribed(x, c, n) <==> Listed(x, c, n);
      assert n in SetOf(t.byConn, c) <==> n in SetOf(x.byConn, c);
    }
  }

  /** One outgoing message: to a channel subscriber, or to a subscriber of a matching pattern. */
  datatype Copy = Direct(conn: Conn) | Via(pattern: string, conn: Conn)

  /** Who must get a copy of a message on a channel. */
  ghost predicate Due(channels: Index, patterns: Index, channel: string, copy: Copy) {
    match copy
    case Direct(conn) => Subscribed(channels, conn, channel)
    case Via(pattern, conn) => Subscribed(patterns, conn, pattern) && PatternMatches(pattern, channel)
  }

  /** Exactly the copies that are due, each once. */
  ghost predicate Exactly(channels: Index, patterns: Index, channel: string, copies: seq<Copy>) {
    && (forall copy :: copy in copies <==> Due(channels, patterns, channel, copy))
    && (forall i, j | 0 <= i < j < |copies| :: copies[i] != copies[j])
  }

  class PubSubManager {
    var channels: Index
    var patterns: Index

    ghost predicate Valid()
      reads this
    {
      Mirrored(channels) && Mirrored(patterns)
    }

    constructor ()
      ensures Valid() && channels == NO_SUBSCRIPTIONS && patterns == NO_SUBSCRIPTIONS
    {
      channels, patterns := NO_SUBSCRIPTIONS, NO_SUBSCRIPTIONS;
    }

    /** The replies count both kinds, which leaves an empty entry for the connection. */
    method Touch(x: Index, conn: Conn) returns (t: Index)
      requires Mirrored(x)
      ensures Mirrored(t) && t.byName == x.byName
    {
      t := x.(byConn := x.byConn[conn := SetOf(x.byConn, conn)]);
      EmptyEntriesDoNotCount(x, t);
    }

    method Add(x: Index, conn: Conn, names: seq<string>) returns (t: Index)
      requires Mirrored(x)
      ensures Mirrored(t)
      ensures forall c, n :: Subscribed(t, c, n) <==> Subscribed(x, c, n) || (c == conn && n in names)
    {
      t := x;
      for i := 0 to |names|
        invariant Mirrored(t)
        invariant forall c, n :: Subscribed(t, c, n) <==> Subscribed(x, c, n) || (c == conn && n in names[..i])
      {
        AddMirrors(t, conn, names[i]);
        assert names[..i + 1] == names[..i] + [names[i]];
        t := WithName(t, conn, names[i]);
      }
      assert names[..|names|] == names;
    }

    /** An empty list means all of the connection's subscriptions. */
    method Drop(x: Index, conn: Conn, names: seq<string>) returns (t: Index)
      requires Mirrored(x)
      ensures Mirrored(t)
      ensures forall c, n :: Subscribed(t, c, n) <==>
        Subscribed(x, c, n) && !(c == conn && (names == [] || n in names))
    {
      if conn !in x.byConn {
        return x;
      }
      var going := names;
      if going == [] {
        going := ListOf(x.byConn[conn]);
      }
      t := x;
      for i := 0 to |going|
        invariant Mirrored(t)
        invariant forall c, n :: Subscribed(t, c, n) <==> Subscribed(x, c, n) && !(c == conn && n in going[..i])
      {
        RemoveMirrors(t, conn, going[i]);
        assert going[..i + 1] == going[..i] + [going[i]];
        t := WithoutName(t, conn, going[i]);
      }
      assert going[..|going|] == going;
      if SetOf(t.byConn, conn) == {} {
        EmptyEntriesDoNotCount(t, t.(byConn := t.byConn - {conn}));
        t := t.(byConn := t.byConn - {conn});
      }
    }

    method Subscribe(conn: Conn, names: seq<string>)
      requires Valid()
      modifies this
      ensures Valid() && patterns.byName == old(patterns).byName
      ensures forall c, n ::
        Subscribed(channels, c, n) <==> Subscribed(old(channels), c, n) || (c == conn && n in names)
    {
      channels := Add(channels, conn, names);
      if names != [] {
        patterns := Touch(patterns, conn);
      }
    }

    method Unsubscribe(conn: Conn, names: seq<string>)
      requires Valid()
      modifies this
      ensures Valid() && patterns.byName == old(patterns).byName
      ensures forall c, n :: Subscribed(channels, c, n) <==>
        Subscribed(old(channels), c, n) && !(c == conn && (names == [] || n in names))
    {
      if conn in channels.byConn && (names != [] || channels.byConn[conn] != {}) {
        patterns := Touch(patterns, conn);
      }
      channels := Drop(channels, conn, names);
    }

    method PSubscribe(conn: Conn, names: seq<string>)
      requires Valid()
      modifies this
      ensures Valid() && channels.byName == old(channels).byName
      ensures forall c, n ::
        Subscribed(patterns, c, n) <==> Subscribed(old(patterns), c, n) || (c == conn && n in names)
    {
      patterns := Add(patterns, conn, names);
      if names != [] {
        channels := Touch(channels, conn);
      }
    }

    method PUnsubscribe(conn: Conn, names: seq<string>)
      requires Valid()
      modifies this
      ensures Valid() && channels.byName == old(channels).byName
      ensures forall c, n :: Subscribed(patterns, c, n) <==>
        Subscribed(old(patterns), c, n) && !(c == conn && (names == [] || n in names))
    {
      if conn in patterns.byConn && (names != [] || patterns.byConn[conn] != {}) {
        channels := Touch(channels, conn);
      }
      patterns := Drop(patterns, conn, names);
    }

    /** The local half of Publish, and all of ProcessPubSubMessage. */
    method Deliver(channel: string) returns (copies: seq<Copy>)
      requires Valid()
      ensures Exactly(channels, patterns, channel, copies)
    {
      copies := [];
      var conns := SetOf(channels.byName, channel);
      while conns != {}
        invariant conns <= SetOf(channels.byName, channel)
        invariant forall copy :: copy in copies <==>
          copy.Direct? && copy.conn in SetOf(channels.byName, channel) && copy.conn !in conns
        invariant forall i, j | 0 <= i < j < |copies| :: copies[i] != copies[j]
        decreases conns
      {
        var conn :| conn in conns;
        copies, conns := copies + [Direct(conn)], conns - {conn};
      }
      copies := DeliverPatterns(channel, copies);
    }

    method DeliverPatterns(channel: string, direct: seq<Copy>) returns (copies: seq<Copy>)
      requires Valid() && (forall copy :: copy in direct <==> copy.Direct? && Subscribed(channels, copy.conn, channel))
      requires forall i, j | 0 <= i < j < |direct| :: direct[i] != direct[j]
      ensures Exactly(channels, patterns, channel, copies)
    {
      copies := direct;
      var names := patterns.byName.Keys;
      while names != {}
        invariant names <= patterns.byName.Keys
        invariant forall copy :: copy in copies <==>
          Due(channels, patterns, channel, copy) && (copy.Via? ==> copy.pattern !in names)
        invariant forall i, j | 0 <= i < j < |copies| :: copies[i] != copies[j]
        decreases names
      {
        var pattern :| pattern in names;
        if PatternMatches(pattern, channel) {
          copies := AddCopies(pattern, patterns.byName[pattern], copies);
        }
        names := names - {pattern};
      }
    }
  }

  /** One copy for each subscriber of a pattern. */
  method AddCopies(pattern: string, subscribers: set<Conn>, before: seq<Copy>) returns (copies: seq<Copy>)
    requires forall conn :: Via(pattern, conn) !in before
    requires forall i, j | 0 <= i < j < |before| :: before[i] != before[j]
    ensures forall copy :: copy in copies <==>
      copy in before || (copy.Via? && copy.pattern == pattern && copy.conn in subscribers)
    ensures forall i, j | 0 <= i < j < |copies| :: copies[i] != copies[j]
  {
    copies := before;
    var left := subscribers;
    while left != {}
      invariant left <= subscribers
      invariant forall copy :: copy in copies <==>
        copy in before || (copy.Via? && copy.pattern == pattern && copy.conn in subscribers - left)
      invariant forall i, j | 0 <= i < j < |copies| :: copies[i] != copies[j]
      decreases left
    {
      var conn :| conn in left;
      copies, left := copies + [Via(pattern, conn)], left - {conn};
    }
  }

  method ListOf(s: set<string>) returns (r: seq<string>)
    ensures forall x :: x in r <==> x in s
  {
    r := [];
    var rest := s;
    while rest != {}
      invariant rest <= s && forall x :: x in r <==> x in s - rest
      decreases rest
    {
      var x :| x in rest;
      r, rest := r + [x], rest - {x};
    }
  }
}
