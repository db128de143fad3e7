/** The editor's state between keypresses, as a value: the cursor and the
    viewport offset, what one keypress does to them, and where in a stream of
    keys the quit key stops the editor. */
module Session {
  import opened Navigation
  import opened Viewport

  /** The quit key, Ctrl-q. */
  const Quit: Key := Ctrl('q')

  datatype View = View(cursor: Position, offset: Position)

  /** The session invariant: the cursor is within the document and on screen. */
  predicate Consistent(v: View, document: seq<nat>, width: nat, height: nat) {
    InBounds(v.cursor, document) && Visible(v.cursor, v.offset, width, height)
  }

  /** One keypress: navigation keys move the cursor, other keys do not, and
      the viewport is scrolled after every key, the quit key included. */
  function Keypress(v: View, key: Key, document: seq<nat>, width: nat, height: nat): (r: View)
    ensures !IsNavigation(key) ==> r.cursor == v.cursor
    ensures InBounds(v.cursor, document) ==> InBounds(r.cursor, document)
    ensures width >= 1 && height >= 1 ==> Visible(r.cursor, r.offset, width, height)
  {
    var cursor := Dispatch(v.cursor, key, document);
    View(cursor, Scroll(cursor, v.offset, width, height))
  }

  /** The state after a sequence of keypresses, applied first to last. */
  function Replay(v: View, keys: seq<Key>, document: seq<nat>, width: nat, height: nat): (r: View)
    ensures (forall i :: 0 <= i < |keys| ==> !IsNavigation(keys[i])) ==> r.cursor == v.cursor
    decreases |keys|
  {
    if keys == [] then v
    else Keypress(Replay(v, keys[..|keys| - 1], document, width, height), keys[|keys| - 1],
                  document, width, height)
  }

  /** Replaying one more key of a stream is one more keypress. */
  lemma ReplayStep(v: View, keys: seq<Key>, n: nat, document: seq<nat>, width: nat, height: nat)
    requires n < |keys|
    ensures Replay(v, keys[..n + 1], document, width, height) ==
      Keypress(Replay(v, keys[..n], document, width, height), keys[n], document, width, height)
  {
    assert keys[..n + 1][..n] == keys[..n];
  }

  /** A trace that starts at `v` and takes one keypress per key of `keys[..n]`
      visits the replays of the successive prefixes. */
  lemma {:induction false} TraceIsReplay(v: View, keys: seq<Key>, trace: seq<View>, n: nat,
                                         document: seq<nat>, width: nat, height: nat)
    requires n <= |keys| && |trace| == n + 1 && trace[0] == v
    requires forall i :: 0 <= i < n ==>
      trace[i + 1] == Keypress(trace[i], keys[i], document, width, height)
    ensures forall i :: 0 <= i <= n ==> trace[i] == Replay(v, keys[..i], document, width, height)
    decreases n
  {
    if n > 0 {
      TraceIsReplay(v, keys, trace[..n], n - 1, document, width, height);
      ReplayStep(v, keys, n - 1, document, width, height);
    }
  }

  /** The index of the first quit key in `keys`, or `|keys|` when there is
      none. */
  function QuitIndex(keys: seq<Key>): (i: nat)
    ensures i <= |keys|
    ensures forall j :: 0 <= j < i ==> keys[j] != Quit
    ensures i < |keys| ==> keys[i] == Quit
  {
    if keys == [] then 0
    else if keys[0] == Quit then 0
    else 1 + QuitIndex(keys[1..])
  }

  // ---------------------------------------------------------------------
  // Properties of a session

  /** One keypress from an in-bounds cursor restores the session invariant,
      whatever the offset was before. */
  lemma KeypressConsistent(v: View, key: Key, document: seq<nat>, width: nat, height: nat)
    requires width >= 1 && height >= 1 && InBounds(v.cursor, document)
    ensures Consistent(Keypress(v, key, document, width, height), document, width, height)
  {
  }

  /** A key other than a navigation key leaves a consistent view unchanged:
      the cursor stays, and the scroll finds it already on screen. */
  lemma IgnoredKeyChangesNothing(v: View, key: Key, document: seq<nat>, width: nat, height: nat)
    requires Consistent(v, document, width, height) && !IsNavigation(key)
    ensures Keypress(v, key, document, width, height) == v
  {
  }

  /** Every session that starts consistent stays consistent. */
  lemma {:induction false} ReplayConsistent(v: View, keys: seq<Key>, document: seq<nat>,
                                            width: nat, height: nat)
    requires width >= 1 && height >= 1 && Consistent(v, document, width, height)
    ensures Consistent(Replay(v, keys, document, width, height), document, width, height)
    decreases |keys|
  {
    if keys != [] {
      var before := Replay(v, keys[..|keys| - 1], document, width, height);
      ReplayConsistent(v, keys[..|keys| - 1], document, width, height);
      KeypressConsistent(before, keys[|keys| - 1], document, width, height);
    }
  }

  /** Keys that are not navigation keys leave a consistent session as it is. */
  lemma {:induction false} IgnoredKeysChangeNothing(v: View, keys: seq<Key>, document: seq<nat>,
                                                    width: nat, height: nat)
    requires Consistent(v, document, width, height)
    requires forall i :: 0 <= i < |keys| ==> !IsNavigation(keys[i])
    ensures Replay(v, keys, document, width, height) == v
    decreases |keys|
  {
    if keys != [] {
      IgnoredKeysChangeNothing(v, keys[..|keys| - 1], document, width, height);
      IgnoredKeyChangesNothing(v, keys[|keys| - 1], document, width, height);
    }
  }
}
