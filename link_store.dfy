/**
 * The link tables behind `linkclan`/`unlinkclan`/`myclan` and
 * `linkprofile`/`unlinkprofile`/`myprofile`. Each table is a JSON object
 * mapping a user id (as a string) to the ordered list of tags that user
 * linked; both tables follow the same logic.
 */
module Links {
  import Tags
  import opened Wrappers

  type UserKey = string
  type Tag = string

  /** The content of one JSON link file. */
  type Table = map<UserKey, seq<Tag>>

  predicate NoDuplicates(s: seq<Tag>) {
    forall i, j :: 0 <= i < j < |s| ==> s[i] != s[j]
  }

  /**
   * What every reachable table satisfies: no user maps to an empty list, no
   * list holds a tag twice, and every stored tag is canonical.
   */
  predicate WellFormed(m: Table) {
    forall u :: u in m ==>
      |m[u]| > 0 && NoDuplicates(m[u]) && forall i :: 0 <= i < |m[u]| ==> Tags.Canonical(m[u][i])
  }

  /** `data.get(user_id)` with a missing key read as no links. */
  function LinksOf(m: Table, u: UserKey): seq<Tag> {
    if u in m then m[u] else []
  }

  /** First position of `x` in `s` (what `list.remove` looks for). */
  function IndexOf(s: seq<Tag>, x: Tag): (k: nat)
    requires x in s
    ensures k < |s| && s[k] == x && x !in s[..k]
  {
    if s[0] == x then 0 else 1 + IndexOf(s[1..], x)
  }

  /** Python's `list.remove(x)`: drops the first occurrence of `x`. */
  function RemoveFirst(s: seq<Tag>, x: Tag): (r: seq<Tag>)
    requires x in s
    ensures r == s[..IndexOf(s, x)] + s[IndexOf(s, x) + 1..]
  {
    if s[0] == x then s[1..]
    else
      assert s[1..][..IndexOf(s[1..], x)] == s[1..IndexOf(s, x)];
      [s[0]] + RemoveFirst(s[1..], x)
  }

  /** The table after `data[user_id].append(tag)` (creating the list if absent). */
  function Appended(m: Table, u: UserKey, t: Tag): (m': Table)
    ensures m'.Keys == m.Keys + {u}
    ensures forall v :: v != u ==> LinksOf(m', v) == LinksOf(m, v)
  {
    m[u := LinksOf(m, u) + [t]]
  }

  /** The table after `data[user_id].remove(tag)` and, if the list emptied, `del data[user_id]`. */
  function Removed(m: Table, u: UserKey, t: Tag): (m': Table)
    requires t in LinksOf(m, u)
    ensures m'.Keys <= m.Keys
    ensures forall v :: v != u ==> LinksOf(m', v) == LinksOf(m, v)
    ensures u in m' <==> |m[u]| > 1
  {
    var rest := RemoveFirst(m[u], t);
    if rest == [] then m - {u} else m[u := rest]
  }

  /** The link handlers' reading of the API lookup that precedes linking. */
  datatype Lookup =
    | Found         // HTTP 200
    | NotFound      // any other status
    | Unreachable   // the request raised

  datatype LinkResult =
    | InvalidTag
    | TagNotFound
    | ApiError
    | Linked(tag: Tag)
    | AlreadyLinked(tag: Tag)

  datatype UnlinkResult = Unlinked(tag: Tag) | NotLinked(tag: Tag)

  datatype ListResult = NoLinks | Listed(tags: seq<Tag>)

  // ---------------------------------------------------------------------------
  // Properties of the table operations

  lemma {:induction false} RemoveFirstOfAppended(s: seq<Tag>, t: Tag)
    requires t !in s
    ensures RemoveFirst(s + [t], t) == s
  {
    var k := IndexOf(s + [t], t);
    assert forall i :: 0 <= i < |s| ==> (s + [t])[i] == s[i];
    assert k == |s|;
    assert (s + [t])[..|s|] == s;
  }

  /** Removing one occurrence from a duplicate-free list keeps the others, in order, and only those. */
  lemma RemoveFirstKeepsNoDuplicates(s: seq<Tag>, t: Tag)
    requires t in s && NoDuplicates(s)
    ensures NoDuplicates(RemoveFirst(s, t)) && t !in RemoveFirst(s, t)
    ensures forall x :: x in RemoveFirst(s, t) ==> x in s
    ensures |RemoveFirst(s, t)| == |s| - 1
  {
    var k := IndexOf(s, t);
    var r := RemoveFirst(s, t);
    assert r == s[..k] + s[k + 1..];
    assert |r| == |s| - 1;
    // Position i of r comes from position i of s before k, and from i + 1 after it.
    assert forall i :: 0 <= i < |r| ==> r[i] == s[if i < k then i else i + 1];
    forall i, j | 0 <= i < j < |r|
      ensures r[i] != r[j]
    {
      var si, sj := if i < k then i else i + 1, if j < k then j else j + 1;
      assert r[i] == s[si] && r[j] == s[sj] && si < sj;
    }
    forall i | 0 <= i < |r|
      ensures r[i] != t && r[i] in s
    {
      var si := if i < k then i else i + 1;
      assert r[i] == s[si] && si != k && s[k] == t;
    }
  }

  /** Appending an absent canonical tag keeps the table well-formed. */
  lemma AppendedWellFormed(m: Table, u: UserKey, t: Tag)
    requires WellFormed(m) && Tags.Canonical(t) && t !in LinksOf(m, u)
    ensures WellFormed(Appended(m, u, t))
  {
    var s := LinksOf(m, u) + [t];
    assert forall i :: 0 <= i < |s| - 1 ==> s[i] == LinksOf(m, u)[i];
  }

  /** Removing a linked tag keeps the table well-formed: in particular no empty list is left. */
  lemma RemovedWellFormed(m: Table, u: UserKey, t: Tag)
    requires WellFormed(m) && t in LinksOf(m, u)
    ensures WellFormed(Removed(m, u, t))
  {
    RemoveFirstKeepsNoDuplicates(m[u], t);
    var r := RemoveFirst(m[u], t);
    forall i | 0 <= i < |r| ensures Tags.Canonical(r[i]) {
      assert r[i] in m[u];
    }
  }

  /** Unlinking a tag right after linking it restores the table exactly. */
  lemma UnlinkUndoesLink(m: Table, u: UserKey, t: Tag)
    requires WellFormed(m) && t !in LinksOf(m, u)
    ensures t in LinksOf(Appended(m, u, t), u)
    ensures Removed(Appended(m, u, t), u, t) == m
  {
    var a := Appended(m, u, t);
    assert a[u] == LinksOf(m, u) + [t];
    RemoveFirstOfAppended(LinksOf(m, u), t);
    var rest := RemoveFirst(a[u], t);
    assert rest == LinksOf(m, u);
    if u in m {
      assert rest != [];
      assert a[u := rest] == m;
    } else {
      assert rest == [];
      assert a - {u} == m;
    }
  }

  /** The link step of the handlers: append when absent, otherwise leave the table alone. */
  function LinkStep(m: Table, u: UserKey, t: Tag): Table {
    if t in LinksOf(m, u) then m else Appended(m, u, t)
  }

  /** Linking the tags of `ts` one after the other. */
  function LinkAll(m: Table, u: UserKey, ts: seq<Tag>): Table
    decreases |ts|
  {
    if ts == [] then m else LinkAll(LinkStep(m, u, ts[0]), u, ts[1..])
  }

  /**
   * Linking distinct new tags one by one lists them after the old ones, in
   * the order they were linked (so A, B, C gives [A, B, C]).
   */
  lemma {:induction false} LinkAllInOrder(m: Table, u: UserKey, ts: seq<Tag>)
    requires NoDuplicates(ts)
    requires forall i :: 0 <= i < |ts| ==> ts[i] !in LinksOf(m, u)
    ensures LinksOf(LinkAll(m, u, ts), u) == LinksOf(m, u) + ts
    decreases |ts|
  {
    if ts != [] {
      var m1 := LinkStep(m, u, ts[0]);
      assert m1 == Appended(m, u, ts[0]);
      forall i | 0 <= i < |ts[1..]| ensures ts[1..][i] !in LinksOf(m1, u) {
        assert ts[1..][i] == ts[i + 1] != ts[0];
      }
      LinkAllInOrder(m1, u, ts[1..]);
      assert LinksOf(m, u) + [ts[0]] + ts[1..] == LinksOf(m, u) + ts;
    }
  }

  /**
   * Linking any sequence of canonical tags, repeats included, keeps the table
   * well-formed: the user's list holds each tag once, however often it was linked.
   */
  lemma {:induction false} LinkAllWellFormed(m: Table, u: UserKey, ts: seq<Tag>)
    requires WellFormed(m)
    requires forall i :: 0 <= i < |ts| ==> Tags.Canonical(ts[i])
    ensures WellFormed(LinkAll(m, u, ts))
    ensures forall t :: t in LinksOf(LinkAll(m, u, ts), u) <==> t in LinksOf(m, u) || t in ts
    decreases |ts|
  {
    if ts != [] {
      var m1 := LinkStep(m, u, ts[0]);
      if ts[0] !in LinksOf(m, u) {
        AppendedWellFormed(m, u, ts[0]);
      }
      LinkAllWellFormed(m1, u, ts[1..]);
      assert forall t :: t in ts <==> t == ts[0] || t in ts[1..];
    }
  }

  /** Linking a tag a second time changes nothing: the second call reports it as already linked. */
  lemma LinkStepIdempotent(m: Table, u: UserKey, t: Tag)
    ensures t in LinksOf(LinkStep(m, u, t), u)
    ensures LinkStep(LinkStep(m, u, t), u, t) == LinkStep(m, u, t)
  {
  }

  // ---------------------------------------------------------------------------
  // The commands, on one link file

  /** One link file (`LINK_FILE` or `PROFILE_FILE`) and the commands that work on it. */
  class LinkStore {
    /** The file's content; every command reads it whole and writes it back whole. */
    var data: Table

    ghost predicate Valid()
      reads this
    {
      WellFormed(data)
    }

    /**
     * At startup a missing file is created holding `{}`; a file left by an
     * earlier run is kept as it is. Such a file was written by these commands,
     * so it is well-formed.
     */
    constructor (onDisk: Option<Table>)
      requires onDisk.Some? ==> WellFormed(onDisk.value)
      ensures Valid()
      ensures data == if onDisk.Some? then onDisk.value else map[]
    {
      if onDisk.Some? {
        data := onDisk.value;
      } else {
        data := map[];
      }
    }

    /**
     * `linkclan` / `linkprofile`: normalise, validate, look the tag up, then
     * append it to the user's list unless it is already there.
     */
    method Link(userId: UserKey, rawTag: string, lookup: Lookup) returns (r: LinkResult)
      requires Valid()
      modifies this
      ensures Valid()
      ensures r == InvalidTag <==> !Tags.IsValidTag(rawTag)
      ensures r == TagNotFound <==> Tags.IsValidTag(rawTag) && lookup == NotFound
      ensures r == ApiError <==> Tags.IsValidTag(rawTag) && lookup == Unreachable
      ensures r.AlreadyLinked? <==>
                Tags.IsValidTag(rawTag) && lookup == Found && Tags.Normalize(rawTag) in old(LinksOf(data, userId))
      ensures r.Linked? || r.AlreadyLinked? ==> r.tag == Tags.Normalize(rawTag) && Tags.Canonical(r.tag)
      ensures data == if r.Linked? then Appended(old(data), userId, r.tag) else old(data)
    {
      var tag := Tags.Normalize(rawTag);
      Tags.HandlerValidation(rawTag);
      if !Tags.IsValidTag(tag) {
        return InvalidTag;
      }
      match lookup {
        case NotFound => return TagNotFound;
        case Unreachable => return ApiError;
        case Found =>
      }
      var d := data;
      if userId !in d {
        d := d[userId := []];
      }
      if tag in d[userId] {
        return AlreadyLinked(tag);
      }
      d := d[userId := d[userId] + [tag]];
      AppendedWellFormed(data, userId, tag);
      data := d;
      return Linked(tag);
    }

    /**
     * `unlinkclan` / `unlinkprofile`: remove the normalised tag from the
     * user's list, dropping the user's key when the list empties.
     */
    method Unlink(userId: UserKey, rawTag: string) returns (r: UnlinkResult)
      requires Valid()
      modifies this
      ensures Valid()
      ensures r.tag == Tags.Normalize(rawTag)
      ensures r.Unlinked? <==> r.tag in old(LinksOf(data, userId))
      ensures data == if r.Unlinked? then Removed(old(data), userId, r.tag) else old(data)
    {
      var tag := Tags.Normalize(rawTag);
      var d := data;
      if userId !in d || tag !in d[userId] {
        return NotLinked(tag);
      }
      d := d[userId := RemoveFirst(d[userId], tag)];
      if d[userId] == [] {
        d := d - {userId};
      }
      RemovedWellFormed(data, userId, tag);
      data := d;
      return Unlinked(tag);
    }

    /**
     * `myclan` / `myprofile`: a missing key and an empty list both mean
     * "no links"; otherwise the tags in the order they were linked.
     */
    function List(userId: UserKey): (r: ListResult)
      reads this
      ensures r == NoLinks <==> LinksOf(data, userId) == []
      ensures r.Listed? ==> r.tags == LinksOf(data, userId)
    {
      var tags := if userId in data then data[userId] else [];
      if tags == [] then NoLinks else Listed(tags)
    }
  }
}
