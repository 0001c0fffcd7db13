/**
 * The type registry resolver of the serializer (map_serializer.cpp, loadTypeRefs and
 * invertTypeRefs): entity name to integer reference, read from a game configuration,
 * and the reverse lookup with its documented tie-break.
 */
module TypeRefs {
  import opened Wrappers
  import opened JsonValues
  import opened Text

  /** The reference meaning "no reference". */
  const NoRef: int := -1

  /** What one pass of the loop in loadTypeRefs does with an entity definition. */
  datatype RefEntry = Skip | Record(ref: int) | Throws

  /**
   * A definition contributes when its `type` is an object; a `ref` there that is
   * not a number throws, an absent `ref` reads as -1, and -1 is not recorded.
   */
  function EntryOf(entity: Json): (r: RefEntry)
    ensures !HasObject(entity, "type") ==> r.Skip?
    ensures HasObject(entity, "type") && Lookup(Member(entity, "type").value.members, "ref").None? ==> r.Skip?
    ensures r.Record? ==> r.ref != NoRef
  {
    if HasObject(entity, "type") then
      match ValueInt(Member(entity, "type").value, "ref", NoRef)
      case None => Throws
      case Some(r) => if r == NoRef then Skip else Record(r)
    else Skip
  }

  /** The loop of loadTypeRefs over `ms`, starting from `acc`; an exception ends it. */
  function Fill(ms: seq<(string, Json)>, acc: map<string, int>): (r: map<string, int>)
    ensures acc.Keys <= r.Keys
    ensures forall n :: n in r ==> (n in acc && r[n] == acc[n]) || r[n] != NoRef
  {
    if |ms| == 0 then acc
    else match EntryOf(ms[0].1)
      case Throws => acc
      case Skip => Fill(ms[1..], acc)
      case Record(r) => Fill(ms[1..], acc[ms[0].0 := r])
  }

  /** The forward mapping loadTypeRefs returns for a configuration. */
  function TypeRefsOf(config: Option<Json>): map<string, int>
  {
    Fill(Definitions(config), map[])
  }

  /** The index of the first definition that throws, or the number of definitions. */
  function StopAt(ms: seq<(string, Json)>): (n: nat)
    ensures n <= |ms|
    ensures forall k :: 0 <= k < n ==> !EntryOf(ms[k].1).Throws?
    ensures n < |ms| ==> EntryOf(ms[n].1).Throws?
  {
    if |ms| == 0 || EntryOf(ms[0].1).Throws? then 0 else 1 + StopAt(ms[1..])
  }

  /**
   * `loadTypeRefs`: the configuration file's content is the input, `None` when it
   * cannot be opened or parsed.
   */
  method LoadTypeRefs(config: Option<Json>) returns (refs: map<string, int>)
    ensures refs == TypeRefsOf(config)
    ensures NoRef !in refs.Values
    ensures config.None? ==> refs == map[]
  {
    NeverRecordsNoRef(Definitions(config), map[]);
    refs := map[];
    if config.None? {
      return;
    }
    var ms := MembersAt(config.value, "entities");
    var i := 0;
    while i < |ms|
      invariant 0 <= i <= |ms|
      invariant Fill(ms[i..], refs) == TypeRefsOf(config)
    {
      var (name, entity) := ms[i];
      assert ms[i..][1..] == ms[i + 1..];
      if HasObject(entity, "type") {
        var ref := ValueInt(Member(entity, "type").value, "ref", NoRef);
        if ref.None? {
          // the exception is caught; what was recorded so far is returned
          return;
        }
        if ref.value != NoRef {
          refs := refs[name := ref.value];
        }
      }
      i := i + 1;
    }
  }

  lemma {:induction false} NeverRecordsNoRef(ms: seq<(string, Json)>, acc: map<string, int>)
    requires NoRef !in acc.Values
    ensures NoRef !in Fill(ms, acc).Values
  {
    if |ms| > 0 {
      match EntryOf(ms[0].1)
      case Throws =>
      case Skip => NeverRecordsNoRef(ms[1..], acc);
      case Record(r) => NeverRecordsNoRef(ms[1..], acc[ms[0].0 := r]);
    }
  }

  /** A name is recorded exactly when a definition before the first exception records it. */
  lemma {:induction false} FillKeys(ms: seq<(string, Json)>, acc: map<string, int>, n: string)
    ensures n in Fill(ms, acc) <==>
      n in acc || exists k :: 0 <= k < StopAt(ms) && ms[k].0 == n && EntryOf(ms[k].1).Record?
  {
    if |ms| > 0 && !EntryOf(ms[0].1).Throws? {
      var acc' := if EntryOf(ms[0].1).Record? then acc[ms[0].0 := EntryOf(ms[0].1).ref] else acc;
      FillKeys(ms[1..], acc', n);
      assert forall k :: 1 <= k < StopAt(ms) ==> ms[k] == ms[1..][k - 1];
      if n in Fill(ms, acc) && n !in acc && !(ms[0].0 == n && EntryOf(ms[0].1).Record?) {
        var k :| 0 <= k < StopAt(ms[1..]) && ms[1..][k].0 == n && EntryOf(ms[1..][k].1).Record?;
        assert ms[k + 1] == ms[1..][k];
      }
    }
  }

  lemma {:induction false} FillKeepsUntouched(ms: seq<(string, Json)>, acc: map<string, int>, n: string)
    requires forall k :: 0 <= k < |ms| ==> ms[k].0 != n
    requires n in acc
    ensures n in Fill(ms, acc) && Fill(ms, acc)[n] == acc[n]
  {
    if |ms| > 0 {
      match EntryOf(ms[0].1)
      case Throws =>
      case Skip => FillKeepsUntouched(ms[1..], acc, n);
      case Record(r) => FillKeepsUntouched(ms[1..], acc[ms[0].0 := r], n);
    }
  }

  /** With distinct names, a recorded definition keeps exactly its own reference. */
  lemma {:induction false} FillValue(ms: seq<(string, Json)>, acc: map<string, int>, k: nat)
    requires DistinctKeys(ms)
    requires k < StopAt(ms) && EntryOf(ms[k].1).Record?
    ensures ms[k].0 in Fill(ms, acc) && Fill(ms, acc)[ms[k].0] == EntryOf(ms[k].1).ref
  {
    var acc' := if EntryOf(ms[0].1).Record? then acc[ms[0].0 := EntryOf(ms[0].1).ref] else acc;
    assert Fill(ms, acc) == Fill(ms[1..], acc');
    if k == 0 {
      FillKeepsUntouched(ms[1..], acc', ms[0].0);
    } else {
      assert ms[1..][k - 1] == ms[k];
      FillValue(ms[1..], acc', k - 1);
    }
  }

  /**
   * What loadTypeRefs promises about a configuration whose definitions have distinct
   * names: -1 is never a value; a name is a key exactly when its definition, before
   * any exception, has a `type` object with a `ref` other than -1, and it maps to that ref.
   */
  lemma TypeRefsCharacterised(config: Option<Json>)
    requires DistinctKeys(Definitions(config))
    ensures NoRef !in TypeRefsOf(config).Values
    ensures config.None? ==> TypeRefsOf(config) == map[]
    ensures forall n :: n in TypeRefsOf(config) <==>
      exists k :: 0 <= k < StopAt(Definitions(config)) && Definitions(config)[k].0 == n
               && EntryOf(Definitions(config)[k].1).Record?
    ensures forall k :: 0 <= k < StopAt(Definitions(config)) && EntryOf(Definitions(config)[k].1).Record? ==>
      TypeRefsOf(config)[Definitions(config)[k].0] == EntryOf(Definitions(config)[k].1).ref
  {
    var ms := Definitions(config);
    NeverRecordsNoRef(ms, map[]);
    forall n {
      FillKeys(ms, map[], n);
    }
    forall k | 0 <= k < StopAt(ms) && EntryOf(ms[k].1).Record? {
      FillValue(ms, map[], k);
    }
  }

  // ---------------------------------------------------------------------------
  // invertTypeRefs

  /** The names that share reference `r`. */
  ghost function NamesWithRef(refs: map<string, int>, r: int): set<string>
  {
    set n | n in refs && refs[n] == r
  }

  /** The greatest string of a non-empty finite set, under `Less`. */
  ghost function GreatestIn(s: set<string>): (g: string)
    requires s != {}
    ensures g in s
    ensures forall n :: n in s && n != g ==> Less(n, g)
    decreases s
  {
    var x :| x in s;
    if s == {x} then x
    else
      var g := GreatestIn(s - {x});
      if Less(g, x) then
        assert forall n :: n in s - {x} && n != g ==> Less(n, x) by {
          forall n | n in s - {x} && n != g ensures Less(n, x) {
            LessTransitive(n, g, x);
          }
        }
        x
      else
        LessTotal(g, x);
        g
  }

  /**
   * The reverse lookup the source's policy determines: each reference names the
   * lexicographically greatest of the names that share it.
   */
  ghost function InverseOf(refs: map<string, int>): map<int, string>
  {
    map r | r in refs.Values :: SharedRefNonEmpty(refs, r); GreatestIn(NamesWithRef(refs, r))
  }

  lemma SharedRefNonEmpty(refs: map<string, int>, r: int)
    requires r in refs.Values
    ensures NamesWithRef(refs, r) != {}
  {
    var n :| n in refs && refs[n] == r;
    assert n in NamesWithRef(refs, r);
  }

  /** `inv` is a reverse lookup of `refs` in which the greatest name wins. */
  ghost predicate IsInverse(refs: map<string, int>, inv: map<int, string>)
  {
    && inv.Keys == refs.Values
    && (forall r :: r in inv ==> inv[r] in refs && refs[inv[r]] == r)
    && (forall n :: n in refs ==> refs[n] in inv && (n == inv[refs[n]] || Less(n, inv[refs[n]])))
  }

  lemma InverseOfIsInverse(refs: map<string, int>)
    ensures IsInverse(refs, InverseOf(refs))
  {
    var inv := InverseOf(refs);
    forall n | n in refs
      ensures refs[n] in inv && (n == inv[refs[n]] || Less(n, inv[refs[n]]))
    {
      assert n in NamesWithRef(refs, refs[n]);
    }
  }

  /** The policy leaves no choice: whatever the iteration order, the result is the same. */
  lemma InverseUnique(refs: map<string, int>, a: map<int, string>, b: map<int, string>)
    requires IsInverse(refs, a) && IsInverse(refs, b)
    ensures a == b
  {
    forall r | r in a
      ensures a[r] == b[r]
    {
      if a[r] != b[r] {
        assert Less(a[r], b[r]) && Less(b[r], a[r]);
        LessAsymmetric(a[r], b[r]);
      }
    }
  }

  /** Entries strictly ascending by name. */
  predicate SortedByName(s: seq<(string, int)>)
  {
    forall a, b :: 0 <= a < b < |s| ==> Less(s[a].0, s[b].0)
  }

  /** `p` placed at its position by name in a sorted sequence that lacks its name. */
  function InsertByName(s: seq<(string, int)>, p: (string, int)): (r: seq<(string, int)>)
    requires SortedByName(s)
    requires forall k :: 0 <= k < |s| ==> s[k].0 != p.0
    ensures SortedByName(r)
    ensures |r| == |s| + 1
    ensures forall q :: q in r <==> q in s || q == p
  {
    if |s| == 0 then [p]
    else if Less(p.0, s[0].0) then
      assert forall k :: 0 <= k < |s| ==> Less(p.0, s[k].0) by {
        forall k | 0 < k < |s| ensures Less(p.0, s[k].0) {
          LessTransitive(p.0, s[0].0, s[k].0);
        }
      }
      [p] + s
    else
      LessTotal(p.0, s[0].0);
      var rest := InsertByName(s[1..], p);
      assert forall k :: 0 <= k < |rest| ==> Less(s[0].0, rest[k].0) by {
        forall k | 0 <= k < |rest| ensures Less(s[0].0, rest[k].0) {
          assert rest[k] in rest;
        }
      }
      [s[0]] + rest
  }

  /**
   * The vector of `refs`' entries sorted by name. The entries are taken in an
   * arbitrary order, as an unordered_map yields them, and each is put at its
   * sorted place.
   */
  method OrderedEntries(refs: map<string, int>) returns (ordered: seq<(string, int)>)
    ensures SortedByName(ordered)
    ensures |ordered| == |refs|
    ensures forall p :: p in ordered <==> p.0 in refs && refs[p.0] == p.1
  {
    ordered := [];
    var rest := refs.Keys;
    while rest != {}
      invariant rest <= refs.Keys
      invariant SortedByName(ordered)
      invariant |ordered| + |rest| == |refs|
      invariant forall p :: p in ordered <==> p.0 in refs && p.0 !in rest && refs[p.0] == p.1
      decreases |rest|
    {
      var n :| n in rest;
      assert forall k :: 0 <= k < |ordered| ==> ordered[k] in ordered;
      ordered := InsertByName(ordered, (n, refs[n]));
      rest := rest - {n};
    }
  }

  /** The diagnostic for reference `ref`: `kept` overrides `discarded`. */
  datatype Duplicate = Duplicate(ref: int, kept: string, discarded: string)

  /**
   * After the first `i` sorted entries are inserted, each reference present maps to
   * a name it was inserted with, and no inserted name with that reference is greater.
   */
  ghost predicate Winners(ordered: seq<(string, int)>, i: nat, inv: map<int, string>)
    requires i <= |ordered|
  {
    && (forall r :: r in inv ==> exists k :: 0 <= k < i && ordered[k] == (inv[r], r))
    && (forall k :: 0 <= k < i ==>
          ordered[k].1 in inv && (ordered[k].0 == inv[ordered[k].1] || Less(ordered[k].0, inv[ordered[k].1])))
  }

  lemma WinnersStep(ordered: seq<(string, int)>, i: nat, inv: map<int, string>)
    requires SortedByName(ordered) && i < |ordered| && Winners(ordered, i, inv)
    ensures Winners(ordered, i + 1, inv[ordered[i].1 := ordered[i].0])
  {
    var inv' := inv[ordered[i].1 := ordered[i].0];
    forall r | r in inv'
      ensures exists k :: 0 <= k < i + 1 && ordered[k] == (inv'[r], r)
    {
      if r != ordered[i].1 {
        var k :| 0 <= k < i && ordered[k] == (inv[r], r);
        assert ordered[k] == (inv'[r], r);
      }
    }
  }

  lemma WinnersComplete(refs: map<string, int>, ordered: seq<(string, int)>, inv: map<int, string>)
    requires forall p :: p in ordered <==> p.0 in refs && refs[p.0] == p.1
    requires Winners(ordered, |ordered|, inv)
    ensures IsInverse(refs, inv)
  {
    forall n | n in refs
      ensures refs[n] in inv && (n == inv[refs[n]] || Less(n, inv[refs[n]]))
    {
      assert (n, refs[n]) in ordered;
    }
    forall r | r in inv
      ensures inv[r] in refs && refs[inv[r]] == r
    {
      var k :| 0 <= k < |ordered| && ordered[k] == (inv[r], r);
      assert ordered[k] in ordered;
    }
  }

  /**
   * `invertTypeRefs`: insert the name-sorted entries one by one, overwriting, and
   * report every overwrite.
   */
  method InvertTypeRefs(refs: map<string, int>) returns (inverted: map<int, string>, log: seq<Duplicate>)
    ensures IsInverse(refs, inverted)
    ensures inverted == InverseOf(refs)
    ensures |log| + |inverted| == |refs|
    ensures forall d :: d in log ==>
      d.kept in refs && d.discarded in refs && refs[d.kept] == d.ref && refs[d.discarded] == d.ref
      && Less(d.discarded, d.kept)
  {
    var ordered := OrderedEntries(refs);
    inverted, log := map[], [];
    var i := 0;
    while i < |ordered|
      invariant 0 <= i <= |ordered|
      invariant Winners(ordered, i, inverted)
      invariant |log| + |inverted| == i
      invariant forall d :: d in log ==>
        (d.kept, d.ref) in ordered && (d.discarded, d.ref) in ordered && Less(d.discarded, d.kept)
    {
      var (name, ref) := ordered[i];
      if ref in inverted {
        var k :| 0 <= k < i && ordered[k] == (inverted[ref], ref);
        assert Less(ordered[k].0, name);
        assert ordered[k] in ordered && ordered[i] in ordered;
        log := log + [Duplicate(ref, name, inverted[ref])];
      }
      WinnersStep(ordered, i, inverted);
      inverted := inverted[ref := name];
      i := i + 1;
    }
    WinnersComplete(refs, ordered, inverted);
    InverseOfIsInverse(refs);
    InverseUnique(refs, inverted, InverseOf(refs));
  }

  /** Names "A" and "B" share ref 1: {"A":1, "B":1, "C":2} inverts to {1:"B", 2:"C"}. */
  lemma InverseExample()
    ensures InverseOf(map["A" := 1, "B" := 1, "C" := 2]) == map[1 := "B", 2 := "C"]
  {
    var refs := map["A" := 1, "B" := 1, "C" := 2];
    var expected := map[1 := "B", 2 := "C"];
    assert refs.Values == {1, 2} by {
      assert refs["A"] == 1 && refs["C"] == 2;
    }
    assert Less("A", "B");
    InverseOfIsInverse(refs);
    InverseUnique(refs, InverseOf(refs), expected);
  }
}
