/** Which records end a response in an error, and that an error, once noted, stays. */
module NetmapFaults {
  import opened Common
  import opened Json
  import opened Netmap
  import opened NetmapNames
  import opened NetmapReading
  import opened NetmapRecords
  import opened NetmapTree

  // An error, once noted, stays

  lemma LeafSticks(env: Env, ctx: Context, key: Bytes, v: Json, w: Work)
    requires w.failed.Some?
    ensures VisitLeaf(env, ctx, key, v, w).failed.Some?
  {
    hide NameOf, TakeOwnKey, Remove;
  }

  lemma EndSticks(capacity: nat, ctx: Context, w: Work)
    requires w.failed.Some?
    ensures Ended(capacity, ctx, w).failed.Some?
  {
    hide Upsert, Find, InsertRegion;
  }

  lemma {:induction false} VisitSticks(env: Env, ctx: Context, inner: Context, key: Bytes, v: Json, w: Work)
    requires w.failed.Some?
    ensures Visit(env, ctx, inner, key, v, w).failed.Some?
    decreases v, Count(v) + 1
  {
    hide VisitLeaf, Ended, ParseU16, VisitFields;
    if !Holds(v) {
      LeafSticks(env, ctx, key, v, w);
    } else {
      var begun := Began(inner, key, w);
      FieldsStick(env, inner, v, Count(v), begun);
      EndSticks(env.capacity, inner, VisitFields(env, inner, v, Count(v), begun));
    }
  }

  lemma {:induction false} FieldsStick(env: Env, ctx: Context, v: Json, n: nat, w: Work)
    requires w.failed.Some? && n <= Count(v)
    ensures VisitFields(env, ctx, v, n, w).failed.Some?
    decreases v, n
  {
    hide Visit, ChildOf;
    if n > 0 {
      FieldsStick(env, ctx, v, n - 1, w);
      var f := Nth(v, n - 1);
      VisitSticks(env, ctx, ChildOf(ctx, f.key), f.key, f.value, VisitFields(env, ctx, v, n - 1, w));
    }
  }

  // Records

  /** What the strings of a list must satisfy; endpoints that do not parse are dropped. */
  predicate ListSound(env: Env, ctx: Context, s: seq<Bytes>) {
    ctx == PeerAddresses || ctx == PeerAllowedIps ==> AllParse(env.cidr, s)
  }

  lemma StringFaults(env: Env, ctx: Context, key: Bytes, w: Work, x: Bytes)
    requires IsList(ctx)
    ensures OnString(env, ctx, key, w, x).failed.None? <==> w.failed.None? && ListSound(env, ctx, [x])
  {
    hide NameOf;
    assert AllParse(env.cidr, [x]) <==> env.cidr([x][0]).Some?;
  }

  lemma {:induction false} ListFaults(env: Env, ctx: Context, v: Json, n: nat, w: Work)
    requires IsList(ctx) && n <= Count(v)
    ensures VisitFields(env, ctx, v, n, w).failed.None? <==> w.failed.None? && ListSound(env, ctx, StringsOf(v, n))
    decreases n
  {
    hide OnString, NameOf;
    if n > 0 {
      ListFaults(env, ctx, v, n - 1, w);
      var f, mid := Nth(v, n - 1), VisitFields(env, ctx, v, n - 1, w);
      ListChild(env, ctx, f, mid);
      if f.value.Str? {
        StringFaults(env, ctx, f.key, mid, f.value.s);
        ParseBoth(env.cidr, StringsOf(v, n - 1), f.value.s);
      } else {
        assert StringsOf(v, n - 1) + [] == StringsOf(v, n - 1);
      }
    }
  }

  lemma ParseBoth(parse: Bytes -> Option<Bytes>, s: seq<Bytes>, x: Bytes)
    ensures AllParse(parse, s + [x]) <==> AllParse(parse, s) && AllParse(parse, [x])
  {
    assert forall i :: 0 <= i < |s| ==> (s + [x])[i] == s[i];
    assert (s + [x])[|s|] == x && [x][0] == x;
  }

  lemma LeafFaults(env: Env, ctx: Context, v: Json, i: nat, w: Work)
    requires IsRecord(ctx) && i < Count(v) && !Holds(ValueAt(v, i))
    ensures VisitLeaf(env, ctx, Nth(v, i).key, Nth(v, i).value, w).failed.None?
            <==> w.failed.None? && MemberSound(env, ctx == PeerObject, NameAt(v, i), ValueAt(v, i))
  {
    hide NameOf, Id, HomeRegion, Online, NodeKey, DiscoKey, Addresses, AllowedIps, Endpoints;
    NthKept(v, i);
  }

  lemma ContainerFaults(env: Env, ctx: Context, v: Json, i: nat, w: Work)
    requires IsRecord(ctx) && i < Count(v) && Holds(ValueAt(v, i))
    ensures var f := Nth(v, i);
            Visit(env, ctx, ChildOf(ctx, f.key), f.key, f.value, w).failed.None?
            <==> w.failed.None? && MemberSound(env, ctx == PeerObject, NameAt(v, i), ValueAt(v, i))
  {
    hide NameOf, Visit, VisitFields, StringsOf, AllParse, Nth;
    hide Id, HomeRegion, Online, NodeKey, DiscoKey, Addresses, AllowedIps, Endpoints;
    NthKept(v, i);
    var f := Nth(v, i);
    var child := ChildOf(ctx, f.key);
    if IsList(child) {
      ListVisit(env, ctx, child, f, w);
      ListFaults(env, child, f.value, Count(f.value), w);
    } else {
      IgnoredContainer(env, ctx, f, w);
    }
  }

  lemma ListVisit(env: Env, ctx: Context, list: Context, f: Field, w: Work)
    requires IsList(list) && Holds(f.value)
    ensures Visit(env, ctx, list, f.key, f.value, w) == VisitFields(env, list, f.value, Count(f.value), w)
  {
    hide VisitFields;
  }

  /** A record is read without error exactly when its keys and addresses parse. */
  lemma {:induction false} RecordFaults(env: Env, ctx: Context, v: Json, n: nat, w: Work)
    requires IsRecord(ctx) && n <= Count(v)
    ensures VisitFields(env, ctx, v, n, w).failed.None?
            <==> w.failed.None? && Sound(env, ctx == PeerObject, v, n)
    decreases n
  {
    hide VisitLeaf, ChildOf, MemberSound, Sound, Nth;
    if n == 0 {
      SoundStep(env, ctx == PeerObject, v, n);
    } else {
      RecordFaults(env, ctx, v, n - 1, w);
      NthIs(v, n - 1);
      SoundStep(env, ctx == PeerObject, v, n);
      var mid := VisitFields(env, ctx, v, n - 1, w);
      if Holds(ValueAt(v, n - 1)) {
        ContainerFaults(env, ctx, v, n - 1, mid);
      } else {
        LeafFaults(env, ctx, v, n - 1, mid);
      }
    }
  }

  lemma SoundStep(env: Env, whole: bool, v: Json, n: nat)
    requires n <= Count(v)
    ensures Sound(env, whole, v, n) <==>
            n == 0 || (Sound(env, whole, v, n - 1) && MemberSound(env, whole, NameAt(v, n - 1), ValueAt(v, n - 1)))
  {
    hide MemberSound;
  }
}
