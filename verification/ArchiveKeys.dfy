/** The archive's key codec and the two filters around it, backend/routes/archive.py: a stored
    key names a node by its private id, the published one by its public ref. */
module ArchiveKeys {
  import opened Selections
  import opened Wrappers

  // ── strip, split and join on "/" ──────────────────────────────────────────

  predicate Free(s: string, c: char) {
    c !in s
  }

  function StripLeft(s: string): string {
    if s != "" && s[0] == '/' then StripLeft(s[1..]) else s
  }

  function StripRight(s: string): string {
    if s != "" && s[|s| - 1] == '/' then StripRight(s[..|s| - 1]) else s
  }

  function Strip(s: string): string {
    StripRight(StripLeft(s))
  }

  predicate Trimmed(s: string) {
    s == "" || (s[0] != '/' && s[|s| - 1] != '/')
  }

  lemma {:induction false} RightLeavesTheFront(s: string)
    requires s != "" && s[0] != '/'
    ensures StripRight(s) != "" && StripRight(s)[0] == s[0] && StripRight(s)[|StripRight(s)| - 1] != '/'
  {
    if s[|s| - 1] == '/' { RightLeavesTheFront(s[..|s| - 1]); }
  }

  lemma {:induction false} StripTrims(s: string)
    ensures Trimmed(Strip(s)) && (Trimmed(s) ==> Strip(s) == s)
    decreases |s|
  {
    if s != "" && s[0] == '/' {
      StripTrims(s[1..]);
    } else if s != "" {
      RightLeavesTheFront(s);
    }
  }

  function Split(s: string): (parts: seq<string>)
    ensures |parts| > 0 && forall i :: 0 <= i < |parts| ==> Free(parts[i], '/')
  {
    if s == "" then [""]
    else if s[0] == '/' then [""] + Split(s[1..])
    else
      var rest := Split(s[1..]);
      [[s[0]] + rest[0]] + rest[1..]
  }

  function Join(parts: seq<string>): string
    requires |parts| > 0
  {
    if |parts| == 1 then parts[0] else parts[0] + "/" + Join(parts[1..])
  }

  lemma {:induction false} JoinOfSplit(s: string)
    ensures Join(Split(s)) == s
  {
    if s == "" {
    } else if s[0] == '/' {
      JoinOfSplit(s[1..]);
    } else {
      var rest := Split(s[1..]);
      JoinOfSplit(s[1..]);
      var parts := [[s[0]] + rest[0]] + rest[1..];
      if |rest| > 1 {
        assert parts[1..] == rest[1..];
        assert ([s[0]] + rest[0]) + "/" + Join(rest[1..]) == [s[0]] + (rest[0] + "/" + Join(rest[1..]));
      }
    }
  }

  lemma {:induction false} SplitOfSegment(head: string, rest: string)
    requires Free(head, '/')
    ensures Split(head) == [head] && Split(head + "/" + rest) == [head] + Split(rest)
  {
    if head == "" {
      assert head + "/" + rest == "/" + rest;
    } else {
      var tail := head[1..];
      SplitOfSegment(tail, rest);
      assert (head + "/" + rest)[1..] == tail + "/" + rest;
      assert [head[0]] + tail == head;
    }
  }

  lemma {:induction false} SplitOfJoin(parts: seq<string>)
    requires |parts| > 0 && forall i :: 0 <= i < |parts| ==> Free(parts[i], '/')
    ensures Split(Join(parts)) == parts
  {
    if |parts| == 1 {
      SplitOfSegment(parts[0], "");
    } else {
      SplitOfJoin(parts[1..]);
      SplitOfSegment(parts[0], Join(parts[1..]));
    }
  }

  lemma {:induction false} EdgesOfSplit(s: string)
    requires s != ""
    ensures s[0] != '/' ==> Split(s)[0] != ""
    ensures s[|s| - 1] != '/' ==> Split(s)[|Split(s)| - 1] != ""
  {
    if |s| > 1 {
      EdgesOfSplit(s[1..]);
      assert s[1..][|s| - 2] == s[|s| - 1];
    }
  }

  lemma {:induction false} JoinIsTrimmed(parts: seq<string>)
    requires |parts| > 0 && parts[|parts| - 1] != "" && forall i :: 0 <= i < |parts| ==> Free(parts[i], '/')
    ensures var s := Join(parts); s != "" && s[|s| - 1] != '/' && (parts[0] != "" ==> s[0] != '/')
  {
    if |parts| > 1 {
      JoinIsTrimmed(parts[1..]);
    }
  }

  // ── the codec ─────────────────────────────────────────────────────────────

  const STORED := "node_id="
  const PUBLISHED := "node_ref="

  /** What a node id is published as, and the node behind a published identity. */
  datatype Refs = Refs(publish: string -> Option<string>, resolve: string -> Option<string>)

  /** What can stand as one segment of a key. */
  predicate Sayable(name: string) {
    name != "" && Free(name, '/')
  }

  /** What one segment resolves to, or is published as, is again one segment. */
  ghost predicate OneSegment(refs: Refs) {
    forall name: string :: Free(name, '/') ==>
      && (refs.publish(name).Some? ==> Sayable(refs.publish(name).value))
      && (refs.resolve(name).Some? ==> Sayable(refs.resolve(name).value))
  }

  /** Refs and ids answer each other. */
  ghost predicate Inverse(refs: Refs) {
    forall id: string, ref: string :: Paired(refs, id, ref)
  }

  predicate Paired(refs: Refs, id: string, ref: string) {
    refs.publish(id) == Some(ref) <==> refs.resolve(ref) == Some(id)
  }

  predicate StartsWith(s: string, prefix: string) {
    prefix <= s
  }

  function RemovePrefix(s: string, prefix: string): string {
    if StartsWith(s, prefix) then s[|prefix|..] else s
  }

  /** What follows the first "=", or the whole. */
  function AfterEquals(s: string): string {
    if Free(s, '=') then s else if s[0] == '=' then s[1..] else AfterEquals(s[1..])
  }

  function Segments(key: string): (parts: seq<string>)
    ensures |parts| > 0
  {
    Split(Strip(key))
  }

  /** The second-to-last segment, where the layout puts the node. */
  function NodeSegment(key: string): string
    requires |Segments(key)| >= 2
  {
    Segments(key)[|Segments(key)| - 2]
  }

  function Respelt(key: string, segment: string): string
    requires |Segments(key)| >= 2
  {
    Join(Segments(key)[|Segments(key)| - 2 := segment])
  }

  function KeyNodeId(key: string): string {
    if |Segments(key)| < 2 then "" else AfterEquals(NodeSegment(key))
  }

  function PublishedKey(refs: Refs, key: string): Option<string> {
    if |Segments(key)| < 2 then Some(key)
    else
      var segment := NodeSegment(key);
      match refs.publish(RemovePrefix(segment, STORED))
      case None => None
      case Some(ref) => Some(Respelt(key, if StartsWith(segment, STORED) then PUBLISHED + ref else ref))
  }

  function StoredKey(refs: Refs, key: string): Option<(string, string)> {
    if |Segments(key)| < 2 then Some((key, ""))
    else
      var segment := NodeSegment(key);
      if !Free(segment, '=') && !StartsWith(segment, PUBLISHED) then None
      else
        match refs.resolve(RemovePrefix(segment, PUBLISHED))
        case None => None
        case Some(id) => Some((Respelt(key, if StartsWith(segment, PUBLISHED) then STORED + id else id), id))
  }

  lemma Respells(key: string, front: seq<string>, segment: string, file: string, other: string)
    requires Segments(key) == front + [segment, file]
    ensures NodeSegment(key) == segment && Respelt(key, other) == Join(front + [other, file])
  {
    assert Segments(key)[|Segments(key)| - 2 := other] == front + [other, file];
  }

  /** A key whose second-to-last segment is `node_id=` and an id is published with `node_ref=` and
      that id's ref in its place, and every other segment as it is; a segment without the tag is an
      id by itself, and published as its bare ref. An id without a ref is not published, and a
      key with no such segment is published as it is. */
  lemma PublishedKeyIsExact(refs: Refs, key: string, front: seq<string>, id: string, file: string)
    ensures Segments(key) == front + ["node_id=" + id, file] ==>
              && KeyNodeId(key) == id
              && PublishedKey(refs, key) == (match refs.publish(id)
                                             case None => None
                                             case Some(ref) => Some(Join(front + ["node_ref=" + ref, file])))
    ensures Segments(key) == front + [id, file] && !("node_id=" <= id) ==>
              && (Free(id, '=') ==> KeyNodeId(key) == id)
              && PublishedKey(refs, key) == (match refs.publish(id)
                                             case None => None
                                             case Some(ref) => Some(Join(front + [ref, file])))
    ensures |Segments(key)| < 2 ==> KeyNodeId(key) == "" && PublishedKey(refs, key) == Some(key)
  {
    TaggedSegment(id);
    if Segments(key) == front + ["node_id=" + id, file] {
      Respells(key, front, "node_id=" + id, file, "");
      if refs.publish(id).Some? { Respells(key, front, "node_id=" + id, file, "node_ref=" + refs.publish(id).value); }
    } else if Segments(key) == front + [id, file] {
      Respells(key, front, id, file, "");
      if refs.publish(id).Some? { Respells(key, front, id, file, refs.publish(id).value); }
    }
  }

  /** The other way about: `node_ref=` and a ref is stored with `node_id=` and the id it resolves
      to, a bare ref as the bare id, any other segment with "=" is refused, as is a ref that
      resolves to nothing, and a key with no such segment is itself and names no node. */
  lemma StoredKeyIsExact(refs: Refs, key: string, front: seq<string>, ref: string, file: string)
    ensures Segments(key) == front + ["node_ref=" + ref, file] ==>
              StoredKey(refs, key) == (match refs.resolve(ref)
                                       case None => None
                                       case Some(id) => Some((Join(front + ["node_id=" + id, file]), id)))
    ensures Segments(key) == front + [ref, file] && Free(ref, '=') ==>
              StoredKey(refs, key) == (match refs.resolve(ref)
                                       case None => None
                                       case Some(id) => Some((Join(front + [id, file]), id)))
    ensures Segments(key) == front + [ref, file] && !Free(ref, '=') && !("node_ref=" <= ref) ==> StoredKey(refs, key).None?
    ensures |Segments(key)| < 2 ==> StoredKey(refs, key) == Some((key, ""))
  {
    TaggedSegment(ref);
    if Segments(key) == front + ["node_ref=" + ref, file] {
      Respells(key, front, "node_ref=" + ref, file, "");
      if refs.resolve(ref).Some? { Respells(key, front, "node_ref=" + ref, file, "node_id=" + refs.resolve(ref).value); }
    } else if Segments(key) == front + [ref, file] {
      Respells(key, front, ref, file, "");
      if refs.resolve(ref).Some? { Respells(key, front, ref, file, refs.resolve(ref).value); }
    }
  }

  /** A respelt key is read back segment for segment. */
  lemma RespeltReadsBack(key: string, segment: string)
    requires |Segments(key)| >= 2 && segment != "" && Free(segment, '/')
    ensures Segments(Respelt(key, segment)) == Segments(key)[|Segments(key)| - 2 := segment]
    ensures Strip(Respelt(key, segment)) == Respelt(key, segment)
  {
    var parts := Segments(key)[|Segments(key)| - 2 := segment];
    StripTrims(key);
    EdgesOfSplit(Strip(key));
    JoinIsTrimmed(parts);
    StripTrims(Join(parts));
    SplitOfJoin(parts);
  }

  lemma RespellingBack(key: string, segment: string)
    requires |Segments(key)| >= 2 && segment != "" && Free(segment, '/')
    ensures |Segments(Respelt(key, segment))| == |Segments(key)|
    ensures Respelt(Respelt(key, segment), NodeSegment(key)) == Strip(key)
  {
    var parts := Segments(key);
    RespeltReadsBack(key, segment);
    assert parts[|parts| - 2 := segment][|parts| - 2 := NodeSegment(key)] == parts;
    JoinOfSplit(Strip(key));
  }

  lemma {:induction false} AfterFirstEquals(head: string, rest: string)
    requires Free(head, '=')
    ensures AfterEquals(head + "=" + rest) == rest
  {
    var s := head + "=" + rest;
    assert s[|head|] == '=';
    if head != "" {
      AfterFirstEquals(head[1..], rest);
      assert s[1..] == head[1..] + "=" + rest;
    }
  }

  lemma {:induction false} AfterEqualsIsShorter(s: string)
    requires !Free(s, '=')
    ensures |AfterEquals(s)| < |s|
  {
    if s[0] != '=' { AfterEqualsIsShorter(s[1..]); }
  }

  lemma TaggedSegment(name: string)
    ensures var s := STORED + name; StartsWith(s, STORED) && RemovePrefix(s, STORED) == name && AfterEquals(s) == name
    ensures var s := PUBLISHED + name; StartsWith(s, PUBLISHED) && RemovePrefix(s, PUBLISHED) == name
    ensures Free(name, '/') ==> Sayable(STORED + name) && Sayable(PUBLISHED + name)
    ensures Free(name, '=') ==> !StartsWith(name, STORED) && !StartsWith(name, PUBLISHED) && AfterEquals(name) == name
  {
    AfterFirstEquals("node_id", name);
    assert STORED + name == "node_id" + "=" + name;
    assert STORED[|STORED| - 1] == '=' == PUBLISHED[|PUBLISHED| - 1];
  }

  lemma {:induction false} JoinIsInjective(parts: seq<string>, k: nat, a: string, b: string)
    requires k < |parts| && Join(parts[k := a]) == Join(parts[k := b])
    ensures a == b
  {
    if |parts| > 1 {
      if k == 0 {
        assert parts[0 := a][1..] == parts[1..] && parts[0 := b][1..] == parts[1..];
        assert a + ("/" + Join(parts[1..])) == Join(parts[0 := a]) && b + ("/" + Join(parts[1..])) == Join(parts[0 := b]);
        SameTail(a, b, "/" + Join(parts[1..]));
      } else {
        var head := parts[0] + "/";
        assert head + Join(parts[1..][k - 1 := a]) == head + Join(parts[1..][k - 1 := b]) by {
          assert parts[k := a][1..] == parts[1..][k - 1 := a] && parts[k := b][1..] == parts[1..][k - 1 := b];
        }
        SameHead(head, Join(parts[1..][k - 1 := a]), Join(parts[1..][k - 1 := b]));
        JoinIsInjective(parts[1..], k - 1, a, b);
      }
    }
  }

  lemma SameTail(a: string, b: string, tail: string)
    requires a + tail == b + tail
    ensures a == b
  {
    assert |a| == |b| && a == (a + tail)[..|a|] && b == (b + tail)[..|b|];
  }

  lemma SameHead(head: string, a: string, b: string)
    requires head + a == head + b
    ensures a == b
  {
    assert a == (head + a)[|head|..] && b == (head + b)[|head|..];
  }

  /** How the store spells a key that arrives with slashes around it. */
  function Spelling(key: string): string {
    if |Segments(key)| < 2 then key else Strip(key)
  }

  /** The node's ref leads back to it and, in a bare segment, neither is written with "=". */
  predicate ReadsBack(refs: Refs, key: string) {
    |Segments(key)| >= 2 ==>
      var segment := NodeSegment(key);
      var id := RemovePrefix(segment, STORED);
      && refs.publish(id).Some? && refs.resolve(refs.publish(id).value) == Some(id)
      && (StartsWith(segment, STORED) || (Free(id, '=') && Free(refs.publish(id).value, '=')))
  }

  /** What the listing publishes, the download reads back as the same file of the same node,
      exactly when the key's own node and ref allow it. */
  lemma PublishedKeyIsReadBack(refs: Refs, key: string)
    requires OneSegment(refs) && PublishedKey(refs, key).Some?
    ensures StoredKey(refs, PublishedKey(refs, key).value) == Some((Spelling(key), KeyNodeId(key)))
        <==> ReadsBack(refs, key)
  {
    if |Segments(key)| >= 2 {
      var segment := NodeSegment(key);
      var id := RemovePrefix(segment, STORED);
      if StartsWith(segment, STORED) {
        HivePublishedIsReadBack(refs, key, id);
      } else {
        BarePublishedIsReadBack(refs, key, id);
      }
    }
  }

  lemma HivePublishedIsReadBack(refs: Refs, key: string, id: string)
    requires OneSegment(refs) && |Segments(key)| >= 2 && NodeSegment(key) == STORED + id && refs.publish(id).Some?
    ensures PublishedKey(refs, key).Some? && KeyNodeId(key) == id
    ensures StoredKey(refs, PublishedKey(refs, key).value) == Some((Spelling(key), id))
        <==> refs.resolve(refs.publish(id).value) == Some(id)
  {
    var ref := refs.publish(id).value;
    assert Free(id, '/') by { assert forall c :: c in id ==> c in NodeSegment(key); }
    TaggedSegment(id);
    TaggedSegment(ref);
    RespeltReadsBack(key, PUBLISHED + ref);
    RespellingBack(key, PUBLISHED + ref);
  }

  lemma BarePublishedIsReadBack(refs: Refs, key: string, id: string)
    requires OneSegment(refs) && |Segments(key)| >= 2 && NodeSegment(key) == id && !StartsWith(id, STORED)
    requires refs.publish(id).Some?
    ensures PublishedKey(refs, key).Some?
    ensures StoredKey(refs, PublishedKey(refs, key).value) == Some((Spelling(key), KeyNodeId(key)))
        <==> refs.resolve(refs.publish(id).value) == Some(id) && Free(id, '=') && Free(refs.publish(id).value, '=')
  {
    var ref := refs.publish(id).value;
    var published := Respelt(key, ref);
    TaggedSegment(id);
    TaggedSegment(ref);
    RespeltReadsBack(key, ref);
    RespellingBack(key, ref);
    if !Free(id, '=') { AfterEqualsIsShorter(id); }
    if StoredKey(refs, published).Some? {
      var segment := if StartsWith(ref, PUBLISHED) then STORED + StoredKey(refs, published).value.1
                     else StoredKey(refs, published).value.1;
      RespeltAlike(published, segment, id);
    }
  }

  /** The node the key names is published as the ref the key gives and, in a bare segment, is
      not written with "=". */
  predicate AnswersTo(refs: Refs, key: string)
    requires StoredKey(refs, key).Some?
  {
    |Segments(key)| >= 2 ==>
      var segment, id := NodeSegment(key), StoredKey(refs, key).value.1;
      && refs.publish(id) == Some(RemovePrefix(segment, PUBLISHED))
      && (StartsWith(segment, PUBLISHED) || Free(id, '='))
  }

  /** Where the stored key has its node, and what stands there. */
  lemma StoredSegment(refs: Refs, key: string)
    requires OneSegment(refs) && StoredKey(refs, key).Some? && |Segments(key)| >= 2
    ensures var (stored, id) := StoredKey(refs, key).value;
            && |Segments(stored)| == |Segments(key)| && Strip(stored) == stored && Sayable(id)
            && NodeSegment(stored) == (if StartsWith(NodeSegment(key), PUBLISHED) then STORED + id else id)
            && Respelt(stored, NodeSegment(key)) == Strip(key)
  {
    var segment, id := NodeSegment(key), StoredKey(refs, key).value.1;
    assert Free(RemovePrefix(segment, PUBLISHED), '/') by {
      assert forall c :: c in RemovePrefix(segment, PUBLISHED) ==> c in segment;
    }
    TaggedSegment(id);
    var respelt := if StartsWith(segment, PUBLISHED) then STORED + id else id;
    RespeltReadsBack(key, respelt);
    RespellingBack(key, respelt);
  }

  /** What the download resolves, the listing would publish as that key, filtered on the same
      node, exactly when the key's own node and ref allow it. */
  lemma StoredKeyIsPublished(refs: Refs, key: string)
    requires OneSegment(refs) && StoredKey(refs, key).Some?
    ensures var (stored, id) := StoredKey(refs, key).value;
            && Spelling(stored) == stored
            && (KeyNodeId(stored) == id && PublishedKey(refs, stored) == Some(Spelling(key)) <==> AnswersTo(refs, key))
  {
    if |Segments(key)| >= 2 {
      StoredSegment(refs, key);
      if StartsWith(NodeSegment(key), PUBLISHED) {
        HiveStoredIsPublished(refs, key);
      } else {
        BareStoredIsPublished(refs, key);
      }
    }
  }

  lemma HiveStoredIsPublished(refs: Refs, key: string)
    requires OneSegment(refs) && StoredKey(refs, key).Some? && |Segments(key)| >= 2
    requires StartsWith(NodeSegment(key), PUBLISHED)
    ensures var (stored, id) := StoredKey(refs, key).value;
            && KeyNodeId(stored) == id
            && (PublishedKey(refs, stored) == Some(Strip(key))
                <==> refs.publish(id) == Some(RemovePrefix(NodeSegment(key), PUBLISHED)))
  {
    var (stored, id) := StoredKey(refs, key).value;
    StoredSegment(refs, key);
    TaggedSegment(id);
    assert NodeSegment(key) == PUBLISHED + RemovePrefix(NodeSegment(key), PUBLISHED);
    if refs.publish(id).Some? { RespeltAlike(stored, PUBLISHED + refs.publish(id).value, NodeSegment(key)); }
    if refs.publish(id).Some? { TaggedSegment(refs.publish(id).value); }
  }

  lemma BareStoredIsPublished(refs: Refs, key: string)
    requires OneSegment(refs) && StoredKey(refs, key).Some? && |Segments(key)| >= 2
    requires !StartsWith(NodeSegment(key), PUBLISHED)
    ensures var (stored, id) := StoredKey(refs, key).value;
            KeyNodeId(stored) == id && PublishedKey(refs, stored) == Some(Strip(key))
            <==> refs.publish(id) == Some(NodeSegment(key)) && Free(id, '=')
  {
    var (stored, id) := StoredKey(refs, key).value;
    StoredSegment(refs, key);
    TaggedSegment(id);
    if !Free(id, '=') { AfterEqualsIsShorter(id); }
    if refs.publish(id).Some? { RespeltAlike(stored, refs.publish(id).value, NodeSegment(key)); }
  }

  lemma RespeltAlike(key: string, a: string, b: string)
    requires |Segments(key)| >= 2
    ensures Respelt(key, a) == Respelt(key, b) <==> a == b
  {
    if Respelt(key, a) == Respelt(key, b) { JoinIsInjective(Segments(key), |Segments(key)| - 2, a, b); }
  }

  // ── the listing and the download ──────────────────────────────────────────

  datatype File = File(key: string, info: string)

  predicate Kept(refs: Refs, hidden: set<string>, key: string) {
    KeyNodeId(key) !in hidden && PublishedKey(refs, key).Some?
  }

  function Listed(refs: Refs, hidden: set<string>, files: seq<File>): seq<File> {
    if files == [] then []
    else
      var rest, f := Listed(refs, hidden, files[..|files| - 1]), files[|files| - 1];
      if Kept(refs, hidden, f.key) then rest + [File(PublishedKey(refs, f.key).value, f.info)] else rest
  }

  /** Which files of a page may be shown, and what each is shown as. */
  function Shown(refs: Refs, hidden: set<string>, files: seq<File>): nat -> bool {
    (k: nat) => k < |files| && KeyNodeId(files[k].key) !in hidden && PublishedKey(refs, files[k].key).Some?
  }

  function ShownAs(refs: Refs, files: seq<File>): (nat, File) -> bool {
    (k: nat, f: File) => k < |files| && PublishedKey(refs, files[k].key) == Some(f.key) && f.info == files[k].info
  }

  /** What is listed is each file whose node is not hidden and has a ref, in order, under its
      published key and otherwise as it is. */
  lemma {:induction false} ListedAreTheShown(refs: Refs, hidden: set<string>, files: seq<File>, n: nat)
    requires n <= |files|
    ensures Picks(n, Shown(refs, hidden, files), ShownAs(refs, files), Listed(refs, hidden, files[..n]))
  {
    if n == 0 {
      PicksNothing(Shown(refs, hidden, files), ShownAs(refs, files));
    } else {
      ListedAreTheShown(refs, hidden, files, n - 1);
      assert files[..n][..n - 1] == files[..n - 1];
      var before, f := Listed(refs, hidden, files[..n - 1]), files[n - 1];
      if Shown(refs, hidden, files)(n - 1) {
        var shown := File(PublishedKey(refs, f.key).value, f.info);
        PicksOneMore(n - 1, Shown(refs, hidden, files), ShownAs(refs, files), before, shown);
      } else {
        PicksOn(n - 1, Shown(refs, hidden, files), ShownAs(refs, files), before);
      }
    }
  }

  /** A page of the store as published, and how many of its files survive. */
  method ListArchive(refs: Refs, hidden: set<string>, nodeRef: Option<string>, scan: Option<string> -> seq<File>)
      returns (files: seq<File>, count: nat)
    ensures count == |files|
    ensures files == match nodeRef
                     case None => Listed(refs, hidden, scan(None))
                     case Some("") => Listed(refs, hidden, scan(None))
                     case Some(ref) =>
                       var id := refs.resolve(ref);
                       if id.None? || id.value in hidden then [] else Listed(refs, hidden, scan(id))
  {
    var id := None;
    if nodeRef.Some? && nodeRef.value != "" {
      id := refs.resolve(nodeRef.value);
      if id.None? || id.value in hidden { return [], 0; }
    }
    var found := scan(id);
    files := [];
    for i := 0 to |found|
      invariant files == Listed(refs, hidden, found[..i])
    {
      assert found[..i + 1][..i] == found[..i];
      var key := found[i].key;
      if KeyNodeId(key) !in hidden {
        var published := PublishedKey(refs, key);
        if published.Some? { files := files + [File(published.value, found[i].info)]; }
      }
    }
    assert found[..|found|] == found;
    count := |files|;
  }

  /** An archived file: one that names its node, or one that does not. */
  datatype Body = Named(nodeId: string, data: string) | Plain(data: string)

  datatype Answer = Renamed(ref: Option<string>, data: string) | AsIs(data: string)

  predicate Passes(refs: Refs, hidden: set<string>, key: string) {
    StoredKey(refs, key).Some? && StoredKey(refs, key).value.1 !in hidden
  }

  /** None is the one 404 that a hidden node and an unknown key both get. */
  function Download(refs: Refs, hidden: set<string>, read: string -> Option<Body>, key: string): Option<Answer> {
    if !Passes(refs, hidden, key) then None
    else
      var (stored, id) := StoredKey(refs, key).value;
      match read(stored)
      case None => None
      case Some(Plain(data)) => Some(AsIs(data))
      case Some(Named(body, data)) =>
        var node := if id != "" then id else body;
        if node in hidden then None else Some(Renamed(refs.publish(node), data))
  }

  /** A download answers exactly when the key leads to a file of a node that is not hidden, and the
      node the file is handed out for is not hidden either: the key's, or else the one its body
      names. What is handed out is the file's data, under that node's ref if the body names one. */
  lemma DownloadIsExact(refs: Refs, hidden: set<string>, read: string -> Option<Body>, key: string, answer: Answer)
    ensures Download(refs, hidden, read, key) == Some(answer) <==>
              exists stored, id :: StoredKey(refs, key) == Some((stored, id)) && id !in hidden
                                   && Answers(refs, hidden, read(stored), id, answer)
  {
    if StoredKey(refs, key).Some? {
      var (stored, id) := StoredKey(refs, key).value;
      assert StoredKey(refs, key) == Some((stored, id));
    }
  }

  predicate Answers(refs: Refs, hidden: set<string>, body: Option<Body>, id: string, answer: Answer) {
    && body.Some?
    && match answer
       case AsIs(data) => body.value == Plain(data)
       case Renamed(ref, data) =>
         && body.value.Named? && body.value.data == data
         && if id != "" then ref == refs.publish(id)
            else body.value.nodeId !in hidden && ref == refs.publish(body.value.nodeId)
  }

  /** Some published key downloads this stored key's file past the filter. */
  ghost predicate Downloadable(refs: Refs, hidden: set<string>, key: string) {
    exists q :: Leads(refs, hidden, q, key)
  }

  predicate Leads(refs: Refs, hidden: set<string>, q: string, key: string) {
    Passes(refs, hidden, q) && StoredKey(refs, q).value.0 == Spelling(key)
  }

  /** The node that goes by the whole of the node segment, if there is one: under a tag it must
      not be one that a bare ref could name, and in a bare segment neither it nor its ref may be
      written with "=". */
  predicate Legible(refs: Refs, key: string) {
    |Segments(key)| >= 2 && refs.publish(NodeSegment(key)).Some? ==>
      var segment, ref := NodeSegment(key), refs.publish(NodeSegment(key)).value;
      if StartsWith(segment, STORED) then !Free(ref, '=') else Free(segment, '=') && Free(ref, '=')
  }

  lemma SpellingKeepsTheNode(key: string)
    ensures Segments(Spelling(key)) == Segments(key)
  {
    StripTrims(key);
    StripTrims(Strip(key));
  }

  /** A bare key that leads to a stored key names its whole node segment; a tagged one names
      what follows the tag there. */
  lemma LeadsToTheSegment(refs: Refs, hidden: set<string>, q: string, key: string)
    requires OneSegment(refs) && Inverse(refs) && Leads(refs, hidden, q, key) && |Segments(key)| >= 2
    ensures |Segments(q)| >= 2
    ensures var segment, id := NodeSegment(q), StoredKey(refs, q).value.1;
            && refs.publish(id) == Some(RemovePrefix(segment, PUBLISHED))
            && NodeSegment(key) == (if StartsWith(segment, PUBLISHED) then STORED + id else id)
            && (!StartsWith(segment, PUBLISHED) ==> Free(segment, '='))
  {
    SpellingKeepsTheNode(key);
    if |Segments(q)| >= 2 {
      StoredSegment(refs, q);
      assert Paired(refs, StoredKey(refs, q).value.1, RemovePrefix(NodeSegment(q), PUBLISHED));
    }
  }

  lemma LegibleIsListed(refs: Refs, hidden: set<string>, q: string, key: string)
    requires OneSegment(refs) && Inverse(refs) && Legible(refs, key) && Leads(refs, hidden, q, key)
    ensures Kept(refs, hidden, key)
  {
    if |Segments(key)| >= 2 {
      LeadsToTheSegment(refs, hidden, q, key);
      TaggedSegment(StoredKey(refs, q).value.1);
    } else if |Segments(q)| >= 2 {
      StoredSegment(refs, q);
    }
  }

  lemma BareRefLeadsBack(refs: Refs, key: string, ref: string)
    requires OneSegment(refs) && |Segments(key)| >= 2 && refs.publish(NodeSegment(key)) == Some(ref)
    requires refs.resolve(ref) == Some(NodeSegment(key)) && Free(ref, '=')
    ensures StoredKey(refs, Respelt(key, ref)) == Some((Spelling(key), NodeSegment(key)))
  {
    TaggedSegment(ref);
    RespeltReadsBack(key, ref);
    RespellingBack(key, ref);
  }

  /** A node segment written with "=" is not the node id read off it. */
  lemma NodeIdIsNotTheSegment(key: string)
    requires |Segments(key)| >= 2 && !Free(NodeSegment(key), '=')
    ensures KeyNodeId(key) != NodeSegment(key)
  {
    AfterEqualsIsShorter(NodeSegment(key));
  }

  lemma StoredTagHasEquals(segment: string)
    requires StartsWith(segment, STORED)
    ensures !Free(segment, '=')
  {
    assert segment[|STORED| - 1] == STORED[|STORED| - 1] == '=';
  }

  /** A key that is not legible is listed and downloaded differently for some private nodes. */
  lemma IllegibleComesApart(refs: Refs, key: string) returns (hidden: set<string>)
    requires OneSegment(refs) && Inverse(refs) && !Legible(refs, key)
    ensures Kept(refs, hidden, key) != Downloadable(refs, hidden, key)
  {
    var segment, ref := NodeSegment(key), refs.publish(NodeSegment(key)).value;
    assert Paired(refs, segment, ref);
    if Free(ref, '=') {
      BareRefLeadsBack(refs, key, ref);
      if StartsWith(segment, STORED) { StoredTagHasEquals(segment); }
      NodeIdIsNotTheSegment(key);
      hidden := {KeyNodeId(key)};
      assert Leads(refs, hidden, Respelt(key, ref), key);
    } else {
      hidden := {};
      forall q ensures !Leads(refs, hidden, q, key) {
        if Leads(refs, hidden, q, key) { LeadsToTheSegment(refs, hidden, q, key); }
      }
    }
  }

  /** Whatever nodes are private, the listing keeps a key exactly when some published key
      downloads that file past the filter, if and only if the key is legible. */
  lemma ListedExactlyWhenDownloadable(refs: Refs, key: string)
    requires OneSegment(refs) && Inverse(refs)
    ensures (forall hidden: set<string> :: Kept(refs, hidden, key) <==> Downloadable(refs, hidden, key))
        <==> Legible(refs, key)
  {
    if Legible(refs, key) {
      forall hidden: set<string> ensures Kept(refs, hidden, key) <==> Downloadable(refs, hidden, key) {
        if Kept(refs, hidden, key) { KeptKeyPasses(refs, hidden, key); }
        forall q | Leads(refs, hidden, q, key) ensures Kept(refs, hidden, key) { LegibleIsListed(refs, hidden, q, key); }
      }
    } else {
      var hidden := IllegibleComesApart(refs, key);
    }
  }

  /** No download hands out a hidden node's file or names a hidden node; a file partitioned under
      a node is named for that node whatever its body says; and the node filtered on is the one
      the listing reads off the key, but for a bare segment written with "=". */
  lemma DownloadsHideTheHidden(refs: Refs, hidden: set<string>, read: string -> Option<Body>, key: string)
    requires Download(refs, hidden, read, key).Some?
    ensures var (stored, id) := StoredKey(refs, key).value;
            && id !in hidden && read(stored).Some?
            && (Download(refs, hidden, read, key).value.Renamed? ==>
                  exists node :: node !in hidden && (id != "" ==> node == id)
                                 && Download(refs, hidden, read, key).value.ref == refs.publish(node))
            && (OneSegment(refs) ==>
                  (KeyNodeId(stored) == id <==>
                   (|Segments(key)| >= 2 && !StartsWith(NodeSegment(key), PUBLISHED) ==> Free(id, '='))))
  {
    var (stored, id) := StoredKey(refs, key).value;
    if OneSegment(refs) && |Segments(key)| >= 2 {
      StoredSegment(refs, key);
      TaggedSegment(id);
      if !Free(id, '=') { AfterEqualsIsShorter(id); }
    }
  }

  /** Every legible key a listing hands out downloads past the filter. */
  lemma {:induction false} ListedKeysPass(refs: Refs, hidden: set<string>, files: seq<File>, i: nat)
    requires OneSegment(refs) && Inverse(refs) && i < |Listed(refs, hidden, files)|
    requires forall f :: f in files ==> Legible(refs, f.key)
    ensures Passes(refs, hidden, Listed(refs, hidden, files)[i].key)
  {
    var f := files[|files| - 1];
    if i < |Listed(refs, hidden, files[..|files| - 1])| {
      ListedKeysPass(refs, hidden, files[..|files| - 1], i);
    } else {
      KeptKeyPasses(refs, hidden, f.key);
    }
  }

  lemma KeptKeyPasses(refs: Refs, hidden: set<string>, key: string)
    requires OneSegment(refs) && Inverse(refs) && Legible(refs, key) && Kept(refs, hidden, key)
    ensures Leads(refs, hidden, PublishedKey(refs, key).value, key)
  {
    if |Segments(key)| >= 2 {
      var id := RemovePrefix(NodeSegment(key), STORED);
      assert Paired(refs, id, refs.publish(id).value);
    }
    PublishedKeyIsReadBack(refs, key);
  }

  /** Synthetic nodes are published as themselves. One named with "=" and archived under its bare
      name is listed, filtered on what follows the "=", and its listed key is refused. */
  lemma BareEqualsIsListedAndRefused(refs: Refs, hidden: set<string>, key: string)
    requires |Segments(key)| >= 2 && !Free(NodeSegment(key), '=')
    requires !StartsWith(NodeSegment(key), STORED) && !StartsWith(NodeSegment(key), PUBLISHED)
    requires refs.publish(NodeSegment(key)) == Some(NodeSegment(key)) && KeyNodeId(key) !in hidden
    ensures Kept(refs, hidden, key) && PublishedKey(refs, key) == Some(Strip(key))
    ensures StoredKey(refs, PublishedKey(refs, key).value).None?
    ensures KeyNodeId(key) != NodeSegment(key)
  {
    var segment := NodeSegment(key);
    AfterEqualsIsShorter(segment);
    RespeltReadsBack(key, segment);
    assert Segments(key)[|Segments(key)| - 2 := segment] == Segments(key);
    JoinOfSplit(Strip(key));
  }

  /** Test nodes published as themselves, as every synthetic node is. */
  function Synthetic(): Refs {
    var named := (x: string) => if "test-" <= x then Some(x) else None;
    Refs(named, named)
  }

  lemma SyntheticIsInverse()
    ensures OneSegment(Synthetic()) && Inverse(Synthetic())
  {
    forall id: string, ref: string ensures Paired(Synthetic(), id, ref) { }
  }

  lemma TestKeySegments(key: string)
    requires key == "test-a=b/part"
    ensures Segments(key) == ["test-a=b", "part"] && Strip(key) == key
  {
    var parts := ["test-a=b", "part"];
    assert parts[1..] == ["part"] && Join(["part"]) == "part";
    assert Join(parts) == "test-a=b" + "/" + "part" == key;
    SplitOfJoin(parts);
    StripTrims(key);
  }

  /** Such a key, under refs that meet every condition above. */
  lemma TestNodeIsListedAndRefused(key: string)
    requires key == "test-a=b/part"
    ensures Kept(Synthetic(), {}, key) && PublishedKey(Synthetic(), key) == Some(key)
    ensures StoredKey(Synthetic(), key).None? && KeyNodeId(key) != "test-a=b"
  {
    var name := "test-a=b";
    TestKeySegments(key);
    assert name[6] == '=' && name[0] == 't' && STORED[0] == 'n' == PUBLISHED[0];
    assert "test-" <= name;
    BareEqualsIsListedAndRefused(Synthetic(), {}, key);
  }
}
