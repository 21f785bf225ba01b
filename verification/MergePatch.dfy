/**
 JSON Merge Patch (section 2 of RFC 7396) on the annotations of one object, as
 client.MergeFrom computes it from a read that may be stale and as the API
 server applies it to the live object.
 */
module MergePatch {
  import opened Contract
  import opened CostAnnotations

  /** The Go types of the objects that carry cost annotations. */
  datatype TargetType = Deployment | StatefulSet | Unstructured {
    /** Typed objects leave an empty annotation map out of their JSON, unstructured ones keep it. */
    predicate OmitsEmpty() {
      Deployment? || StatefulSet?
    }
  }

  /** DropAll is the document with "annotations": null. */
  datatype Document = DropAll | Edit(put: Annotations, drop: set<Key>)

  function Diff(typ: TargetType, read: Annotations, modified: Annotations): Document {
    if typ.OmitsEmpty() && modified == map[] && read != map[] then
      DropAll
    else
      Edit(modified - (set key | key in modified && AgreeAt(read, modified, key)), read.Keys - modified.Keys)
  }

  function Apply(live: Annotations, doc: Document): Annotations {
    match doc
    case DropAll => map[]
    case Edit(put, drop) => (live - drop) + put
  }

  /** What the server holds after the caller read, modified and patched an object that is now live. */
  function Sent(typ: TargetType, live: Annotations, read: Annotations, modified: Annotations): Annotations {
    Apply(live, Diff(typ, read, modified))
  }

  /** With a fresh read the live object becomes exactly the computed map. */
  lemma FreshRead(typ: TargetType, read: Annotations, modified: Annotations)
    ensures Sent(typ, read, read, modified) == modified
  {
    if Diff(typ, read, modified).Edit? {
      forall key ensures AgreeAt(Sent(typ, read, read, modified), modified, key) {
      }
      AgreeEverywhere(Sent(typ, read, read, modified), modified);
    }
  }

  /** Unless everything is dropped, a patch edits the keys that the caller changed and no other. */
  lemma SentAt(typ: TargetType, live: Annotations, read: Annotations, modified: Annotations, key: Key)
    requires Diff(typ, read, modified).Edit?
    ensures AgreeAt(Sent(typ, live, read, modified), if AgreeAt(read, modified, key) then live else modified, key)
  {
  }

  /**
   A cost write computed from a stale read leaves every foreign annotation of
   the live object alone, and does at a cost key what a fresh write would do
   wherever the read was up to date.
   */
  lemma StaleWrite(typ: TargetType, live: Annotations, read: Annotations, res: CostResult, key: Key)
    ensures var after := Sent(typ, live, read, Patched(read, res));
            && (key !in RATE_KEYS ==> AgreeAt(after, live, key))
            && (AgreeAt(read, live, key) ==> AgreeAt(after, Patched(live, res), key))
  {
    hide Desired;
    UpdatedIsDesired(res);
    PatchedAt(read, res, Updated);
    assert Patched(read, res) != map[];
    SentAt(typ, live, read, Patched(read, res), key);
    PatchedAt(read, res, key);
    PatchedAt(live, res, key);
    if key !in RATE_KEYS {
      ForeignIsNotDesired(res, key);
    }
  }

  lemma UpdatedIsDesired(res: CostResult)
    ensures Desired(res, Updated).Some?
  {
  }

  lemma ForeignIsNotDesired(res: CostResult, key: Key)
    requires key !in RATE_KEYS
    ensures Desired(res, key).None? && key != PerToken
  {
  }

  function Removed(anns: Annotations): Annotations {
    anns - RATE_KEYS
  }

  /** Nothing of a foreign key is lost or changed on the live object. */
  ghost predicate KeepsForeign(typ: TargetType, read: Annotations, modified: Annotations) {
    forall live: Annotations, key ::
      key !in RATE_KEYS ==> AgreeAt(Sent(typ, live, read, modified), live, key)
  }

  /**
   A removal keeps every foreign annotation that appeared after the read,
   except in one case: the object is typed and its read annotations are all
   removed. Then the patch document drops the whole annotation map.
   */
  lemma RemovalKeepsForeign(typ: TargetType, read: Annotations)
    ensures KeepsForeign(typ, read, Removed(read)) <==>
            !(typ.OmitsEmpty() && read != map[] && read.Keys <= RATE_KEYS)
  {
    var modified := Removed(read);
    if typ.OmitsEmpty() && read != map[] && read.Keys <= RATE_KEYS {
      assert Diff(typ, read, Removed(read)) == DropAll;
      var key := Foreign("example.com/owner");
      var live: Annotations := map[key := "team-a"];
      assert key !in RATE_KEYS && !AgreeAt(Sent(typ, live, read, Removed(read)), live, key);
    } else {
      if modified == map[] && read != map[] {
        assert forall key :: key in read ==> key in RATE_KEYS || key in modified;
      }
      assert Diff(typ, read, modified).Edit?;
      forall live: Annotations, key | key !in RATE_KEYS
        ensures AgreeAt(Sent(typ, live, read, modified), live, key)
      {
        SentAt(typ, live, read, modified, key);
      }
    }
  }
}

/** The CLI's reader of the cost annotations (costAnnotationsFromMap). */
module CostReader {
  import opened Options
  import opened Numerals
  import opened CostFormat
  import opened Contract
  import opened CostAnnotations

  datatype Reading = Reading(
    costPerHour: Option<real>,
    costPerToken: Option<real>,
    costPerHourTotal: Option<real>,
    lastUpdated: string)

  function ReadCost(anns: Annotations, key: Key): Option<real> {
    if key in anns && TrimSpace(anns[key]) != "" then ParseFloat(TrimSpace(anns[key])) else None
  }

  function CostAnnotationsFromMap(anns: Annotations): Reading {
    Reading(
      ReadCost(anns, if PerReplica in anns then PerReplica else PerHour),
      ReadCost(anns, PerToken),
      ReadCost(anns, Total),
      Lookup(anns, Updated))
  }

  function RoundedOption(v: Option<real>): Option<real> {
    match v
    case None => None
    case Some(x) => Some(Rounded(x))
  }

  lemma ReadWritten(anns: Annotations, key: Key, v: real)
    requires key in anns && anns[key] == FormatCost(v)
    ensures ReadCost(anns, key) == Some(Rounded(v))
  {
    hide FormatCost, TrimSpace, ParseFloat, Rounded;
    ParseFormatCost(v);
  }

  /**
   Round trip of a write: from the annotations that a write leaves behind, the
   reader gets the per-replica cost and the token cost rounded to twelve
   decimals, no token cost if none was written, and the fleet cost when the
   replica count was positive. With no positive replica count an older total is
   what the reader still sees.
   */
  lemma ReadBack(existing: Annotations, res: CostResult)
    requires res.costPerHour.Some?
    ensures var r := CostAnnotationsFromMap(Patched(existing, res));
            && r.costPerHour == Some(Rounded(res.costPerHour.value))
            && r.costPerToken == RoundedOption(res.costPerToken)
            && r.costPerHourTotal ==
               (if HasTotal(res) then Some(Rounded(FleetCost(res))) else ReadCost(existing, Total))
            && r.lastUpdated == res.lastUpdatedAt
  {
    hide FormatCost, FormatInt, TrimSpace, ParseFloat, Rounded, FleetCost, Patched, Built;
    var after := Patched(existing, res);
    PatchedAt(existing, res, PerReplica);
    PatchedAt(existing, res, PerToken);
    PatchedAt(existing, res, Total);
    PatchedAt(existing, res, Updated);
    ReadWritten(after, PerReplica, res.costPerHour.value);
    if res.costPerToken.Some? {
      ReadWritten(after, PerToken, res.costPerToken.value);
    }
    if HasTotal(res) {
      ReadWritten(after, Total, FleetCost(res));
    }
  }

  lemma SameButOne(a: Annotations, b: Annotations, but: Key, key: Key)
    requires a - {but} == b - {but} && key != but
    ensures AgreeAt(a, b, key)
  {
    assert key in a <==> key in a - {but};
    assert key in b <==> key in b - {but};
  }

  lemma ReadAgreeing(a: Annotations, b: Annotations, key: Key)
    requires AgreeAt(a, b, key)
    ensures ReadCost(a, key) == ReadCost(b, key)
  {
  }

  /** A skipped patch shows the reader the same costs as a sent one. */
  lemma ReadBackSkipped(existing: Annotations, res: CostResult)
    requires !ShouldPatch(existing, res)
    ensures CostAnnotationsFromMap(existing).(lastUpdated := res.lastUpdatedAt)
            == CostAnnotationsFromMap(Patched(existing, res))
  {
    hide FormatCost, FormatInt, ReadCost, FleetCost, Patched, ShouldPatch;
    SkipIffUnchanged(existing, res);
    var after := Patched(existing, res);
    PatchedAt(existing, res, Updated);
    forall key | key != Updated
      ensures AgreeAt(after, existing, key) && ReadCost(after, key) == ReadCost(existing, key)
    {
      SameButOne(after, existing, Updated, key);
      ReadAgreeing(after, existing, key);
    }
  }

  /** Annotations of an older patcher, without the newer key, are read by the deprecated one. */
  lemma OlderKeyIsRead(anns: Annotations, v: real)
    requires PerReplica !in anns && PerHour in anns && anns[PerHour] == FormatCost(v)
    ensures CostAnnotationsFromMap(anns).costPerHour == Some(Rounded(v))
  {
    hide FormatCost, TrimSpace, ParseFloat, Rounded;
    ReadWritten(anns, PerHour, v);
  }

  /** Blanks around a cost do not matter. */
  lemma BlanksAreIgnored(anns: Annotations, key: Key, before: string, v: real, after: string)
    requires key in anns && anns[key] == before + FormatCost(v) + after && Blank(before) && Blank(after)
    ensures ReadCost(anns, key) == Some(Rounded(v))
  {
    ParseFormatCost(v);
    hide FormatCost, TrimSpace, ParseFloat, Rounded, Blank;
    TrimBlank(before, FormatCost(v), after);
  }

  /** A missing, a blank and an unreadable cost are no cost. */
  lemma NoCostIsRead(anns: Annotations, key: Key)
    requires key in anns ==> Blank(anns[key]) || ParseFloat(TrimSpace(anns[key])).None?
    ensures ReadCost(anns, key) == None
  {
    if key in anns && Blank(anns[key]) {
      TrimBlank(anns[key], "", "");
      assert anns[key] + "" + "" == anns[key];
    }
    hide TrimSpace, ParseFloat;
  }
}
