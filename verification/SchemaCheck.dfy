/** Validation of the column descriptors of a sync message. */
module SchemaCheck {
  import opened Schema

  datatype DataType = Boolean | Other(id: nat)

  datatype Field = Field(dataType: DataType, nullable: bool)

  datatype ColumnDescriptor = ColumnDescriptor(role: int, name: string)

  datatype SchemaResult =
    | Ok(schema: SyncSchema)
    | CountMismatch
    | BadColumn(column: nat)
    | MissingPk
    | DifferentPks

  /** The wire value of a role. */
  function RoleCode(role: ColumnRole): int {
    match role
    case OldPk => 0
    case NewPk => 1
    case Changed => 2
    case Value => 3
  }

  predicate IsRole(code: int) {
    0 <= code <= 3
  }

  function RoleOf(code: int): (role: ColumnRole)
    requires IsRole(code)
    ensures RoleCode(role) == code
  {
    if code == 0 then OldPk else if code == 1 then NewPk else if code == 2 then Changed else Value
  }

  predicate PointsToValue(descs: seq<ColumnDescriptor>, name: string) {
    exists k :: 0 <= k < |descs| && descs[k] == ColumnDescriptor(RoleCode(Value), name)
  }

  /** The role is known, and a `Changed` column is a boolean that cannot be NULL and belongs to a value
      column. */
  predicate GoodColumn(descs: seq<ColumnDescriptor>, d: ColumnDescriptor, f: Field) {
    && IsRole(d.role)
    && (d.role == RoleCode(Changed) ==> f == Field(Boolean, false) && PointsToValue(descs, d.name))
  }

  /** Descriptors and top-level fields are paired up to the shorter of the two. */
  function Paired(descs: seq<ColumnDescriptor>, fields: seq<Field>): nat {
    if |descs| <= |fields| then |descs| else |fields|
  }

  ghost function PkTypes(descs: seq<ColumnDescriptor>, fields: seq<Field>, role: ColumnRole,
                         n: nat): set<(string, DataType)>
    requires n <= Paired(descs, fields)
  {
    set i | 0 <= i < n && descs[i].role == RoleCode(role) :: (descs[i].name, fields[i].dataType)
  }

  ghost predicate Acceptable(descs: seq<ColumnDescriptor>, fields: seq<Field>, flattened: nat) {
    var n := Paired(descs, fields);
    && |descs| == flattened
    && (forall i :: 0 <= i < n ==> GoodColumn(descs, descs[i], fields[i]))
    && PkTypes(descs, fields, OldPk, n) == PkTypes(descs, fields, NewPk, n) != {}
  }

  /** A message is accepted exactly when its descriptors are acceptable, and then every column keeps its
      role and name; otherwise the first reason found is reported. */
  method TryNew(descs: seq<ColumnDescriptor>, fields: seq<Field>, flattened: nat) returns (r: SchemaResult)
    ensures r.Ok? <==> Acceptable(descs, fields, flattened)
    ensures r.Ok? ==>
      && |r.schema| == Paired(descs, fields)
      && forall i :: 0 <= i < |r.schema| ==>
           r.schema[i].name == descs[i].name && RoleCode(r.schema[i].role) == descs[i].role
    ensures r.Ok? ==> forall i :: 0 <= i < |r.schema| ==>
      && (r.schema[i].role == OldPk <==> descs[i].role == 0) && (r.schema[i].role == NewPk <==> descs[i].role == 1)
      && (r.schema[i].role == Changed <==> descs[i].role == 2) && (r.schema[i].role == Value <==> descs[i].role == 3)
    ensures r.CountMismatch? <==> |descs| != flattened
    ensures r.BadColumn? ==>
      && r.column < Paired(descs, fields) && !GoodColumn(descs, descs[r.column], fields[r.column])
      && forall i :: 0 <= i < r.column ==> GoodColumn(descs, descs[i], fields[i])
    ensures r.MissingPk? || r.DifferentPks? ==>
      var n := Paired(descs, fields);
      && (forall i :: 0 <= i < n ==> GoodColumn(descs, descs[i], fields[i]))
      && (r.MissingPk? <==> PkTypes(descs, fields, OldPk, n) == {} || PkTypes(descs, fields, NewPk, n) == {})
  {
    if |descs| != flattened {
      return CountMismatch;
    }
    hide PointsToValue;
    var n := Paired(descs, fields);
    var oldPks: set<(string, DataType)>, newPks: set<(string, DataType)> := {}, {};
    var columns: SyncSchema := [];
    for i := 0 to n
      invariant oldPks == PkTypes(descs, fields, OldPk, i) && newPks == PkTypes(descs, fields, NewPk, i)
      invariant forall k :: 0 <= k < i ==> GoodColumn(descs, descs[k], fields[k])
      invariant |columns| == i
      invariant forall k :: 0 <= k < i ==>
        columns[k].name == descs[k].name && RoleCode(columns[k].role) == descs[k].role
    {
      var d, f := descs[i], fields[i];
      if d.role == RoleCode(OldPk) {
        oldPks := oldPks + {(d.name, f.dataType)};
      } else if d.role == RoleCode(NewPk) {
        newPks := newPks + {(d.name, f.dataType)};
      } else if d.role == RoleCode(Changed) {
        if f.dataType != Boolean || f.nullable || !PointsToValue(descs, d.name) {
          return BadColumn(i);
        }
      } else if d.role != RoleCode(Value) {
        return BadColumn(i);
      }
      columns := columns + [SyncColumn(RoleOf(d.role), d.name)];
    }
    if oldPks == {} || newPks == {} {
      return MissingPk;
    }
    if oldPks != newPks {
      return DifferentPks;
    }
    r := Ok(columns);
  }

  lemma SameNames(descs: seq<ColumnDescriptor>, fields: seq<Field>, schema: SyncSchema, role: ColumnRole, name: string)
    requires |schema| == Paired(descs, fields)
    requires forall i :: 0 <= i < |schema| ==>
      schema[i].name == descs[i].name && RoleCode(schema[i].role) == descs[i].role
    ensures name in Names(schema, role) <==> exists t :: (name, t) in PkTypes(descs, fields, role, |schema|)
  {
    if name in Names(schema, role) {
      var i :| 0 <= i < |schema| && schema[i].role == role && schema[i].name == name;
      assert (name, fields[i].dataType) in PkTypes(descs, fields, role, |schema|);
    }
    if t :| (name, t) in PkTypes(descs, fields, role, |schema|) {
      var i :| 0 <= i < |schema| && descs[i].role == RoleCode(role) && (descs[i].name, fields[i].dataType) == (name, t);
      assert schema[i].role == role;
    }
  }

  /** An accepted schema over plain fields is valid for squashing, pruning and the join if and only if no
      two columns share role and name and no column is both a key and a value, which is not checked. */
  lemma AcceptedIsValid(descs: seq<ColumnDescriptor>, fields: seq<Field>, schema: SyncSchema)
    requires Acceptable(descs, fields, |fields|) && |schema| == |fields|
    requires forall i :: 0 <= i < |schema| ==>
      schema[i].name == descs[i].name && RoleCode(schema[i].role) == descs[i].role
    ensures Valid(schema) <==> DistinctColumns(schema) && Names(schema, Value) !! Names(schema, NewPk)
  {
    hide DistinctColumns;
    forall name ensures name in Names(schema, OldPk) <==> name in Names(schema, NewPk) {
      hide Names;
      SameNames(descs, fields, schema, OldPk, name);
      SameNames(descs, fields, schema, NewPk, name);
    }
    var p :| p in PkTypes(descs, fields, OldPk, |schema|);
    assert p == (p.0, p.1);
    SameNames(descs, fields, schema, OldPk, p.0);
    forall name | name in Names(schema, Changed) ensures name in Names(schema, Value) {
      ChangedHasValue(descs, fields, schema, name);
    }
  }

  lemma ChangedHasValue(descs: seq<ColumnDescriptor>, fields: seq<Field>, schema: SyncSchema, name: string)
    requires Acceptable(descs, fields, |fields|) && |schema| == |fields|
    requires forall i :: 0 <= i < |schema| ==>
      schema[i].name == descs[i].name && RoleCode(schema[i].role) == descs[i].role
    requires name in Names(schema, Changed)
    ensures name in Names(schema, Value)
  {
    hide PkTypes;
    var i :| 0 <= i < |schema| && schema[i].role == Changed && schema[i].name == name;
    assert GoodColumn(descs, descs[i], fields[i]);
    var k :| 0 <= k < |descs| && descs[k] == ColumnDescriptor(RoleCode(Value), name);
    assert schema[k].role == Value;
  }
}
