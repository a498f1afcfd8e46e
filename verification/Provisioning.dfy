/** Sessions scoped to one tenant, and the flush hook that registers tenants just in time. */
module Provisioning {
  import opened Prelude

  predicate IsSpace(c: char) {
    var u := c as int;
    || 0x09 <= u <= 0x0D || 0x1C <= u <= 0x20 || u == 0x85 || u == 0xA0 || u == 0x1680
    || 0x2000 <= u <= 0x200A || u == 0x2028 || u == 0x2029 || u == 0x202F || u == 0x205F || u == 0x3000
  }

  /** A scoped session refuses a tenant id that Python's `strip()` leaves empty. */
  predicate Blank(text: string) {
    forall i :: 0 <= i < |text| ==> IsSpace(text[i])
  }

  /** Python's `text.strip()`. */
  function Strip(text: string): string {
    if text == "" then ""
    else if IsSpace(text[0]) then Strip(text[1..])
    else if IsSpace(text[|text| - 1]) then Strip(text[..|text| - 1])
    else text
  }

  /** A text is blank if and only if nothing is left of it. */
  lemma {:induction false} BlankIff(text: string)
    ensures Blank(text) <==> Strip(text) == ""
    decreases |text|
  {
    if text == "" {
    } else if IsSpace(text[0]) {
      BlankIff(text[1..]);
      assert text == [text[0]] + text[1..];
    } else {
      KeepsFirst(text);
    }
  }

  lemma {:induction false} KeepsFirst(text: string)
    requires text != "" && !IsSpace(text[0])
    ensures Strip(text) != ""
    decreases |text|
  {
    if |text| == 1 {
    } else if IsSpace(text[|text| - 1]) {
      KeepsFirst(text[..|text| - 1]);
    }
  }

  /** An object about to be inserted: a tenant row, a tenant-scoped row, or neither. */
  datatype NewObject = TenantRow(id: string) | Scoped(tenantId: string) | Unscoped

  function ScopedIds(objects: seq<NewObject>): set<string> {
    set o | o in objects && o.Scoped? && o.tenantId != "" :: o.tenantId
  }

  function TenantIds(objects: seq<NewObject>): set<string> {
    set o | o in objects && o.TenantRow? :: o.id
  }

  /** The tenants the hook inserts before a flush. */
  function Missing(objects: seq<NewObject>, tenants: set<string>): set<string> {
    ScopedIds(objects) - TenantIds(objects) - tenants
  }

  /** The registry once the flush, with the hook, is through. `asked` are the tenants that the hook's query
      saw, `tenants` those registered when the rows are written. A tenant id is a primary key and the hook inserts
      without a conflict clause, so None stands for the exception and the rollback: a tenant is inserted twice, or
      a row's foreign key is not met. */
  function AfterFlush(objects: seq<NewObject>, asked: set<string>, tenants: set<string>): Option<set<string>> {
    var inserted := Missing(objects, asked) + TenantIds(objects);
    if inserted !! tenants && ScopedIds(objects) <= tenants + inserted then Some(tenants + inserted) else None
  }

  /** The hook, with its two passes over the new objects. It inserts just the tenants that its query misses. */
  method AutoProvision(objects: seq<NewObject>, tenants: set<string>) returns (toCreate: set<string>)
    ensures toCreate == Missing(objects, tenants)
  {
    var candidates: set<string> := {};
    for i := 0 to |objects|
      invariant candidates == ScopedIds(objects[..i])
    {
      assert objects[..i + 1] == objects[..i] + [objects[i]];
      if objects[i].Scoped? && objects[i].tenantId != "" {
        assert objects[i] in objects[..i + 1];
        candidates := candidates + {objects[i].tenantId};
      }
    }
    assert objects[..|objects|] == objects;
    if candidates == {} {
      return {};
    }
    var alreadyCreating := TenantIds(objects);
    candidates := candidates - alreadyCreating;
    if candidates == {} {
      return {};
    }
    var existing := candidates * tenants;
    toCreate := candidates - existing;
  }

  /** The foreign key of every row in the flush is met, no tenant is inserted twice, and none is invented. */
  lemma FlushMeetsForeignKeys(objects: seq<NewObject>, asked: set<string>, tenants: set<string>)
    requires AfterFlush(objects, asked, tenants).Some?
    ensures var after := AfterFlush(objects, asked, tenants).value;
            && tenants <= after
            && (forall o :: o in objects && o.Scoped? && o.tenantId != "" ==> o.tenantId in after)
            && Missing(objects, asked) !! tenants && Missing(objects, asked) !! TenantIds(objects)
            && (forall id :: id in after ==> id in tenants || Scoped(id) in objects || TenantRow(id) in objects)
  {
    forall o | o in objects && o.Scoped? && o.tenantId != "" ensures o.tenantId in ScopedIds(objects) {
    }
  }

  /** The registry only grows, so what the query saw is still there. Then a flush goes through if and only if
      nobody has registered meanwhile, or before, a tenant that it inserts. */
  lemma FlushGoesThroughIff(objects: seq<NewObject>, asked: set<string>, tenants: set<string>)
    requires asked <= tenants
    ensures AfterFlush(objects, asked, tenants).Some?
            <==> Missing(objects, asked) !! tenants && TenantIds(objects) !! tenants
  {
  }

  /** A flush that nothing overlaps, with no tenant row of its own, always goes through. */
  lemma LoneFlushGoesThrough(objects: seq<NewObject>, tenants: set<string>)
    requires TenantIds(objects) == {}
    ensures AfterFlush(objects, tenants, tenants) == Some(tenants + ScopedIds(objects))
  {
    FlushGoesThroughIff(objects, tenants, tenants);
    assert tenants + (Missing(objects, tenants) + TenantIds(objects)) == tenants + ScopedIds(objects);
  }
}
