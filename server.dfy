/**
 * The users API: key renaming between column names and field names, and
 * the decisions of the POST, PUT and DELETE handlers over the users table,
 * which is modelled as a map from id to row.
 */
module Server {

  import opened Types
  import opened Json
  import Strings

  // ---------------------------------------------------------------------------
  // toCamelCase and its inverse on field names

  predicate IsLower(c: char) {
    'a' <= c <= 'z'
  }

  predicate IsUpper(c: char) {
    'A' <= c <= 'Z'
  }

  function ToUpper(c: char): (u: char)
    requires IsLower(c)
    ensures IsUpper(u)
  {
    (c as int - 32) as char
  }

  function ToLower(c: char): (l: char)
    requires IsUpper(c)
    ensures IsLower(l) && ToUpper(l) == c
  {
    (c as int + 32) as char
  }

  /** An underscore followed by a lower-case letter starts at `i`. */
  predicate SnakePairAt(s: string, i: int) {
    0 <= i && i + 1 < |s| && s[i] == '_' && IsLower(s[i + 1])
  }

  /**
   * `s.replace(/_([a-z])/g, g => g[1].toUpperCase())`: the matches are found
   * left to right and do not overlap.
   */
  function ToCamelCase(s: string): (r: string)
    decreases |s|
  {
    if s == [] then []
    else if SnakePairAt(s, 0) then [ToUpper(s[1])] + ToCamelCase(s[2..])
    else [s[0]] + ToCamelCase(s[1..])
  }

  predicate NoSnakePair(s: string) {
    forall i :: 0 <= i < |s| ==> !SnakePairAt(s, i)
  }

  lemma {:induction false} ToCamelCaseHead(s: string)
    requires s != []
    ensures ToCamelCase(s) != []
    ensures ToCamelCase(s)[0] == if SnakePairAt(s, 0) then ToUpper(s[1]) else s[0]
  {
  }

  /** Every `_x` pair is rewritten: the result holds none. */
  lemma {:induction false} ToCamelCaseLeavesNoPair(s: string)
    ensures NoSnakePair(ToCamelCase(s))
    decreases |s|
  {
    if s != [] {
      var r := ToCamelCase(s);
      if SnakePairAt(s, 0) {
        var t := ToCamelCase(s[2..]);
        ToCamelCaseLeavesNoPair(s[2..]);
        assert r == [ToUpper(s[1])] + t;
        forall i | 0 <= i < |r| ensures !SnakePairAt(r, i) {
          if i > 0 {
            assert !SnakePairAt(t, i - 1);
          }
        }
      } else {
        var t := ToCamelCase(s[1..]);
        ToCamelCaseLeavesNoPair(s[1..]);
        assert r == [s[0]] + t;
        forall i | 0 <= i < |r| ensures !SnakePairAt(r, i) {
          if i > 0 {
            assert !SnakePairAt(t, i - 1);
          } else if s[0] == '_' && |s| > 1 {
            ToCamelCaseHead(s[1..]);
          }
        }
      }
    }
  }

  /** Characters outside `_x` pairs are kept: a string without pairs is unchanged. */
  lemma {:induction false} ToCamelCaseKeepsPlain(s: string)
    requires NoSnakePair(s)
    ensures ToCamelCase(s) == s
    decreases |s|
  {
    if s != [] {
      assert !SnakePairAt(s, 0);
      assert NoSnakePair(s[1..]) by {
        forall i | 0 <= i < |s[1..]| ensures !SnakePairAt(s[1..], i) {
          assert !SnakePairAt(s, i + 1);
        }
      }
      ToCamelCaseKeepsPlain(s[1..]);
      assert [s[0]] + s[1..] == s;
    }
  }

  lemma ToCamelCaseIdempotent(s: string)
    ensures ToCamelCase(ToCamelCase(s)) == ToCamelCase(s)
  {
    ToCamelCaseLeavesNoPair(s);
    ToCamelCaseKeepsPlain(ToCamelCase(s));
  }

  /** The column name of a field: every capital `X` becomes `_x`. */
  function ToSnakeCase(s: string): string {
    if s == [] then []
    else if IsUpper(s[0]) then ['_', ToLower(s[0])] + ToSnakeCase(s[1..])
    else [s[0]] + ToSnakeCase(s[1..])
  }

  predicate NoUnderscore(s: string) {
    forall i :: 0 <= i < |s| ==> s[i] != '_'
  }

  /** Renaming a field to its column and back gives the field again. */
  lemma {:induction false} CamelSnakeRoundTrip(s: string)
    requires NoUnderscore(s)
    ensures ToCamelCase(ToSnakeCase(s)) == s
  {
    if s != [] {
      assert NoUnderscore(s[1..]) by {
        forall i | 0 <= i < |s[1..]| ensures s[1..][i] != '_' {
          assert s[1..][i] == s[i + 1];
        }
      }
      CamelSnakeRoundTrip(s[1..]);
      var t := ToSnakeCase(s[1..]);
      if IsUpper(s[0]) {
        var w := ['_', ToLower(s[0])] + t;
        assert SnakePairAt(w, 0) && w[2..] == t;
      } else {
        var w := [s[0]] + t;
        assert !SnakePairAt(w, 0) && w[1..] == t;
      }
      assert [s[0]] + s[1..] == s;
    }
  }

  // ---------------------------------------------------------------------------
  // convertObjectKeys

  function IndexOf(fields: seq<(string, Json)>, key: string): (r: Option<nat>)
    ensures r.Some? ==> r.value < |fields| && fields[r.value].0 == key
    ensures r.None? <==> forall i :: 0 <= i < |fields| ==> fields[i].0 != key
  {
    if fields == [] then None
    else if fields[0].0 == key then Some(0)
    else
      var r := IndexOf(fields[1..], key);
      assert forall i :: 1 <= i < |fields| ==> fields[i] == fields[1..][i - 1];
      if r.Some? then Some(r.value + 1) else None
  }

  /** `obj[key] = value`: an existing key keeps its place, a new key goes last. */
  function SetKey(fields: seq<(string, Json)>, key: string, value: Json): seq<(string, Json)> {
    match IndexOf(fields, key)
    case Some(i) => fields[i := (key, value)]
    case None => fields + [(key, value)]
  }

  /** The object the renaming loop builds from the first entries, in order. */
  function Renamed(fields: seq<(string, Json)>, converter: string -> string): seq<(string, Json)> {
    if fields == [] then []
    else
      var last := fields[|fields| - 1];
      SetKey(Renamed(fields[..|fields| - 1], converter), converter(last.0), last.1)
  }

  /**
   * `convertObjectKeys(obj, converter)`: null, primitives and arrays come back
   * unchanged; an object comes back with each own key renamed and its value kept.
   */
  method ConvertObjectKeys(obj: Json, converter: string -> string) returns (r: Json)
    ensures !obj.JObj? ==> r == obj
    ensures obj.JObj? ==> r == JObj(Renamed(obj.fields, converter))
  {
    if !obj.JObj? {
      return obj;
    }
    var fields := obj.fields;
    var newObj: seq<(string, Json)> := [];
    for i := 0 to |fields|
      invariant newObj == Renamed(fields[..i], converter)
    {
      assert fields[..i + 1][..i] == fields[..i];
      newObj := SetKey(newObj, converter(fields[i].0), fields[i].1);
    }
    assert fields[..|fields|] == fields;
    return JObj(newObj);
  }

  /** When the converter keeps keys apart, every entry keeps its place and its value. */
  lemma {:induction false} RenamedKeepsEntries(fields: seq<(string, Json)>, converter: string -> string)
    requires forall i, j :: 0 <= i < j < |fields| ==> converter(fields[i].0) != converter(fields[j].0)
    ensures |Renamed(fields, converter)| == |fields|
    ensures forall i :: 0 <= i < |fields| ==>
      Renamed(fields, converter)[i] == (converter(fields[i].0), fields[i].1)
  {
    if fields != [] {
      var n := |fields| - 1;
      var init := fields[..n];
      assert forall i :: 0 <= i < n ==> init[i] == fields[i];
      RenamedKeepsEntries(init, converter);
      var prev := Renamed(init, converter);
      var key := converter(fields[n].0);
      assert forall i :: 0 <= i < |prev| ==> prev[i].0 != key;
      assert Renamed(fields, converter) == prev + [(key, fields[n].1)];
    }
  }

  // ---------------------------------------------------------------------------
  // The users table and its column names

  /** A value bound to a query placeholder. */
  datatype Value = VRole(role: UserRole) | VBool(b: bool) | VInt(i: int) | VStr(s: string)

  predicate LowerWord(s: string) {
    forall i :: 0 <= i < |s| ==> IsLower(s[i])
  }

  lemma {:induction false} LowerWordUnchanged(s: string)
    requires LowerWord(s)
    ensures ToCamelCase(s) == s && ToSnakeCase(s) == s
  {
    if s != [] {
      assert LowerWord(s[1..]) by {
        forall i | 0 <= i < |s[1..]| ensures IsLower(s[1..][i]) {
          assert s[1..][i] == s[i + 1];
        }
      }
      LowerWordUnchanged(s[1..]);
      assert [s[0]] + s[1..] == s;
    }
  }

  lemma {:induction false} ToSnakeCaseAppend(a: string, b: string)
    ensures ToSnakeCase(a + b) == ToSnakeCase(a) + ToSnakeCase(b)
  {
    if a == [] {
      assert a + b == b;
    } else {
      assert (a + b)[0] == a[0] && (a + b)[1..] == a[1..] + b;
      ToSnakeCaseAppend(a[1..], b);
    }
  }

  /** No `_x` pair straddles the join, so the halves are renamed apart. */
  lemma {:induction false} ToCamelCaseAppend(a: string, b: string)
    requires a == [] || a[|a| - 1] != '_'
    ensures ToCamelCase(a + b) == ToCamelCase(a) + ToCamelCase(b)
    decreases |a|
  {
    if a == [] {
      assert a + b == b;
    } else if SnakePairAt(a + b, 0) {
      assert |a| >= 2 && SnakePairAt(a, 0);
      assert (a + b)[2..] == a[2..] + b;
      ToCamelCaseAppend(a[2..], b);
    } else {
      assert !SnakePairAt(a, 0);
      assert (a + b)[1..] == a[1..] + b;
      ToCamelCaseAppend(a[1..], b);
    }
  }

  function Capitalized(w: string): string
    requires w != [] && IsLower(w[0])
  {
    [ToUpper(w[0])] + w[1..]
  }

  lemma {:induction false} LowerWordTail(w: string)
    requires w != [] && LowerWord(w)
    ensures LowerWord(w[1..])
  {
    forall i | 0 <= i < |w[1..]| ensures IsLower(w[1..][i]) {
      assert w[1..][i] == w[i + 1];
    }
  }

  /** `_word` renames to `Word`, and back. */
  lemma SuffixRename(word: string)
    requires word != [] && LowerWord(word)
    ensures ToCamelCase("_" + word) == Capitalized(word)
    ensures ToSnakeCase(Capitalized(word)) == "_" + word
  {
    var rest := word[1..];
    LowerWordTail(word);
    LowerWordUnchanged(rest);
    var tail := "_" + word;
    assert SnakePairAt(tail, 0) && tail[2..] == rest;
    var cap := Capitalized(word);
    assert cap[1..] == rest && IsUpper(cap[0]) && ToLower(cap[0]) == word[0];
    assert ['_', word[0]] + rest == "_" + word;
  }

  /** A name as its lower-case words, such as `["last", "count", "reset"]`. */
  predicate Words(ws: seq<string>) {
    forall k :: 0 <= k < |ws| ==> ws[k] != [] && LowerWord(ws[k])
  }

  /** The column spelling of a name: its words joined by underscores. */
  function SnakeJoin(ws: seq<string>): string
    requires Words(ws)
  {
    if |ws| <= 1 then (if ws == [] then "" else ws[0])
    else SnakeJoin(ws[..|ws| - 1]) + "_" + ws[|ws| - 1]
  }

  /** The field spelling of a name: every word after the first capitalised. */
  function CamelJoin(ws: seq<string>): string
    requires Words(ws)
  {
    if |ws| <= 1 then (if ws == [] then "" else ws[0])
    else CamelJoin(ws[..|ws| - 1]) + Capitalized(ws[|ws| - 1])
  }

  /** `toCamelCase` turns the column spelling of a name into its field spelling, and back. */
  lemma {:induction false} JoinRename(ws: seq<string>)
    requires Words(ws) && ws != []
    ensures SnakeJoin(ws) != [] && SnakeJoin(ws)[|SnakeJoin(ws)| - 1] != '_'
    ensures ToCamelCase(SnakeJoin(ws)) == CamelJoin(ws)
    ensures ToSnakeCase(CamelJoin(ws)) == SnakeJoin(ws)
  {
    if |ws| == 1 {
      LowerWordUnchanged(ws[0]);
    } else {
      var init, last := ws[..|ws| - 1], ws[|ws| - 1];
      assert Words(init) by {
        forall k | 0 <= k < |init| ensures init[k] != [] && LowerWord(init[k]) {
          assert init[k] == ws[k];
        }
      }
      JoinRename(init);
      SuffixRename(last);
      var column := SnakeJoin(init);
      assert SnakeJoin(ws) == column + ("_" + last);
      ToCamelCaseAppend(column, "_" + last);
      ToSnakeCaseAppend(CamelJoin(init), Capitalized(last));
    }
  }

  lemma TwoWords(a: string, b: string)
    requires a != [] && LowerWord(a) && b != [] && LowerWord(b)
    ensures Words([a, b])
    ensures SnakeJoin([a, b]) == a + "_" + b && CamelJoin([a, b]) == a + Capitalized(b)
  {
    assert [a, b][..1] == [a];
  }

  lemma ThreeWords(a: string, b: string, c: string)
    requires a != [] && LowerWord(a) && b != [] && LowerWord(b) && c != [] && LowerWord(c)
    ensures Words([a, b, c])
    ensures SnakeJoin([a, b, c]) == a + "_" + b + "_" + c
    ensures CamelJoin([a, b, c]) == a + Capitalized(b) + Capitalized(c)
  {
    assert [a, b, c][..2] == [a, b];
    TwoWords(a, b);
  }

  /** The words of the updatable fields, in the order the PUT handler maps them. */
  const FieldWords: seq<seq<string>> := [
    ["role"], ["is", "suspended"], ["daily", "limit"], ["message", "count"], ["last", "count", "reset"]
  ]

  /** The updatable fields and their columns, in the order the PUT handler maps them. */
  const FieldColumns: seq<(string, string)> := [
    ("role", "role"),
    ("isSuspended", "is_suspended"),
    ("dailyLimit", "daily_limit"),
    ("messageCount", "message_count"),
    ("lastCountReset", "last_count_reset")
  ]

  lemma SpellsRole()
    ensures Words(["role"])
    ensures CamelJoin(["role"]) == "role" && SnakeJoin(["role"]) == "role"
  {
    assert LowerWord("role");
  }

  lemma SpellsSuspended()
    ensures Words(["is", "suspended"])
    ensures CamelJoin(["is", "suspended"]) == "isSuspended" && SnakeJoin(["is", "suspended"]) == "is_suspended"
  {
    TwoWords("is", "suspended");
    assert Capitalized("suspended") == "Suspended";
    assert "is" + "_" + "suspended" == "is_suspended" && "is" + "Suspended" == "isSuspended";
  }

  lemma SpellsLimit()
    ensures Words(["daily", "limit"])
    ensures CamelJoin(["daily", "limit"]) == "dailyLimit" && SnakeJoin(["daily", "limit"]) == "daily_limit"
  {
    TwoWords("daily", "limit");
    assert Capitalized("limit") == "Limit";
    assert "daily" + "_" + "limit" == "daily_limit" && "daily" + "Limit" == "dailyLimit";
  }

  lemma SpellsCount()
    ensures Words(["message", "count"])
    ensures CamelJoin(["message", "count"]) == "messageCount" && SnakeJoin(["message", "count"]) == "message_count"
  {
    TwoWords("message", "count");
    assert Capitalized("count") == "Count";
    assert "message" + "_" + "count" == "message_count" && "message" + "Count" == "messageCount";
  }

  lemma SpellsReset()
    ensures Words(["last", "count", "reset"])
    ensures CamelJoin(["last", "count", "reset"]) == "lastCountReset" && SnakeJoin(["last", "count", "reset"]) == "last_count_reset"
  {
    ThreeWords("last", "count", "reset");
    assert Capitalized("count") == "Count" && Capitalized("reset") == "Reset";
    assert "last" + "_" + "count" + "_" + "reset" == "last_count_reset";
    assert "last" + "Count" + "Reset" == "lastCountReset";
  }

  lemma FieldColumnsSpellWords()
    ensures |FieldWords| == |FieldColumns|
    ensures forall i :: 0 <= i < |FieldWords| ==> Words(FieldWords[i]) && FieldWords[i] != []
    ensures forall i :: 0 <= i < |FieldWords| ==>
      FieldColumns[i] == (CamelJoin(FieldWords[i]), SnakeJoin(FieldWords[i]))
  {
    SpellsRole();
    SpellsSuspended();
    SpellsLimit();
    SpellsCount();
    SpellsReset();
  }

  /** The renaming agrees with the mapping table, in both directions. */
  lemma FieldColumnsAgreeWithRenaming()
    ensures forall i :: 0 <= i < |FieldColumns| ==>
      ToCamelCase(FieldColumns[i].1) == FieldColumns[i].0 &&
      ToSnakeCase(FieldColumns[i].0) == FieldColumns[i].1
  {
    FieldColumnsSpellWords();
    forall i | 0 <= i < |FieldColumns|
      ensures ToCamelCase(FieldColumns[i].1) == FieldColumns[i].0
      ensures ToSnakeCase(FieldColumns[i].0) == FieldColumns[i].1
    {
      JoinRename(FieldWords[i]);
    }
  }

  // ---------------------------------------------------------------------------
  // PUT /api/users/:id

  function Entry(column: string, value: Option<Value>): seq<(string, Value)> {
    if value.Some? then [(column, value.value)] else []
  }

  function RoleValue(r: Option<UserRole>): Option<Value> {
    if r.Some? then Some(VRole(r.value)) else None
  }

  function BoolValue(b: Option<bool>): Option<Value> {
    if b.Some? then Some(VBool(b.value)) else None
  }

  function IntValue(n: Option<int>): Option<Value> {
    if n.Some? then Some(VInt(n.value)) else None
  }

  function StrValue(s: Option<string>): Option<Value> {
    if s.Some? then Some(VStr(s.value)) else None
  }

  /** The column updates a body asks for: the mapped fields it gives, in mapping order. */
  function Whitelisted(updates: Patch): seq<(string, Value)> {
    Entry("role", RoleValue(updates.role))
    + Entry("is_suspended", BoolValue(updates.isSuspended))
    + Entry("daily_limit", IntValue(updates.dailyLimit))
    + Entry("message_count", IntValue(updates.messageCount))
    + Entry("last_count_reset", StrValue(updates.lastCountReset))
  }

  /** The `dbUpdates` dictionary, filled field by field. */
  method BuildDbUpdates(updates: Patch) returns (dbUpdates: seq<(string, Value)>)
    ensures dbUpdates == Whitelisted(updates)
    ensures dbUpdates == [] <==>
      updates.role.None? && updates.isSuspended.None? && updates.dailyLimit.None?
      && updates.messageCount.None? && updates.lastCountReset.None?
  {
    dbUpdates := [];
    if updates.role.Some? { dbUpdates := dbUpdates + [("role", VRole(updates.role.value))]; }
    if updates.isSuspended.Some? { dbUpdates := dbUpdates + [("is_suspended", VBool(updates.isSuspended.value))]; }
    if updates.dailyLimit.Some? { dbUpdates := dbUpdates + [("daily_limit", VInt(updates.dailyLimit.value))]; }
    if updates.messageCount.Some? { dbUpdates := dbUpdates + [("message_count", VInt(updates.messageCount.value))]; }
    if updates.lastCountReset.Some? { dbUpdates := dbUpdates + [("last_count_reset", VStr(updates.lastCountReset.value))]; }
  }

  /** A field outside the mapping, such as the balance, never reaches the query. */
  lemma BalanceIsNotMapped(updates: Patch, balance: Option<int>)
    ensures Whitelisted(updates.(aocBalance := balance)) == Whitelisted(updates)
    ensures Whitelisted(NoChange.(aocBalance := balance)) == []
  {
  }

  /** `UPDATE users SET c1 = $1, ..., cn = $n WHERE id = $(n+1) RETURNING *`. */
  datatype UpdateQuery = UpdateQuery(assignments: seq<(string, nat)>, wherePlaceholder: nat)

  function Numbered(columns: seq<string>, first: nat): (a: seq<(string, nat)>)
    ensures |a| == |columns|
    ensures forall i :: 0 <= i < |a| ==> a[i] == (columns[i], first + i)
  {
    if columns == [] then [] else [(columns[0], first)] + Numbered(columns[1..], first + 1)
  }

  function BuildQuery(columns: seq<string>): UpdateQuery {
    UpdateQuery(Numbered(columns, 1), |columns| + 1)
  }

  function Columns(d: seq<(string, Value)>): (c: seq<string>)
    ensures |c| == |d| && forall i :: 0 <= i < |d| ==> c[i] == d[i].0
  {
    if d == [] then [] else [d[0].0] + Columns(d[1..])
  }

  function Values(d: seq<(string, Value)>): (v: seq<Value>)
    ensures |v| == |d| && forall i :: 0 <= i < |d| ==> v[i] == d[i].1
  {
    if d == [] then [] else [d[0].1] + Values(d[1..])
  }

  function Placeholder(k: nat): string {
    "$" + Strings.NatToString(k)
  }

  function AssignmentTexts(a: seq<(string, nat)>): seq<string> {
    if a == [] then [] else [a[0].0 + " = " + Placeholder(a[0].1)] + AssignmentTexts(a[1..])
  }

  /** The SET clause: the assignments joined by `, `. */
  function SetClause(q: UpdateQuery): string {
    Strings.Join(AssignmentTexts(q.assignments), ", ")
  }

  function QueryText(q: UpdateQuery): string {
    "UPDATE users SET " + SetClause(q) + " WHERE id = " + Placeholder(q.wherePlaceholder) + " RETURNING *"
  }

  /** Each assignment reads `column = $k`, in the order of the list. */
  lemma {:induction false} AssignmentTextsEach(a: seq<(string, nat)>)
    ensures |AssignmentTexts(a)| == |a|
    ensures forall i :: 0 <= i < |a| ==> AssignmentTexts(a)[i] == a[i].0 + " = " + Placeholder(a[i].1)
  {
    if a != [] {
      AssignmentTextsEach(a[1..]);
      assert forall i :: 1 <= i < |a| ==> a[1..][i - 1] == a[i];
    }
  }

  /**
   * For every column list, the i-th assignment (from 0) is `column_i = $(i+1)`,
   * and the id takes the placeholder after the last column.
   */
  lemma QueryShape(columns: seq<string>)
    ensures |AssignmentTexts(BuildQuery(columns).assignments)| == |columns|
    ensures forall i :: 0 <= i < |columns| ==>
      AssignmentTexts(BuildQuery(columns).assignments)[i] == columns[i] + " = " + Placeholder(i + 1)
    ensures BuildQuery(columns).wherePlaceholder == |columns| + 1
  {
    AssignmentTextsEach(Numbered(columns, 1));
  }

  lemma ResetAssignmentTexts()
    ensures AssignmentTexts([("message_count", 1), ("last_count_reset", 2)])
         == ["message_count = $1", "last_count_reset = $2"]
  {
    var tail := [("last_count_reset", 2)];
    assert [("message_count", 1), ("last_count_reset", 2)][1..] == tail;
    assert tail[1..] == [];
    assert Placeholder(1) == "$1" && Placeholder(2) == "$2";
    assert "last_count_reset" + " = " + "$2" == "last_count_reset = $2";
    assert "message_count" + " = " + "$1" == "message_count = $1";
  }

  lemma ResetSetClauseText()
    ensures Strings.Join(["message_count = $1", "last_count_reset = $2"], ", ")
         == "message_count = $1, last_count_reset = $2"
  {
    assert ["message_count = $1", "last_count_reset = $2"][..1] == ["message_count = $1"];
  }

  /** The query a daily reset issues. */
  lemma ResetQueryText()
    ensures QueryText(BuildQuery(["message_count", "last_count_reset"]))
         == "UPDATE users SET " + "message_count = $1, last_count_reset = $2" + " WHERE id = " + "$3" + " RETURNING *"
  {
    var q := BuildQuery(["message_count", "last_count_reset"]);
    assert q.assignments == [("message_count", 1), ("last_count_reset", 2)];
    ResetAssignmentTexts();
    ResetSetClauseText();
    assert SetClause(q) == "message_count = $1, last_count_reset = $2";
    assert q.wherePlaceholder == 3 && Placeholder(3) == "$3";
  }

  /** Writing one value into one column of a row; `None` when the database refuses it. */
  function ApplyColumn(row: User, column: string, v: Value): Option<User> {
    match v
    case VRole(r) => if column == "role" then Some(row.(role := r)) else None
    case VBool(b) => if column == "is_suspended" then Some(row.(isSuspended := b)) else None
    case VInt(n) =>
      if column == "daily_limit" then Some(row.(dailyLimit := n))
      else if column == "message_count" then Some(row.(messageCount := n))
      else if column == "aoc_balance" then Some(row.(aocBalance := n))
      else None
    case VStr(s) => if column == "last_count_reset" then Some(row.(lastCountReset := s)) else None
  }

  function ExecuteAssignments(row: User, a: seq<(string, nat)>, values: seq<Value>): Option<User>
    decreases |a|
  {
    if a == [] then Some(row)
    else if !(1 <= a[0].1 <= |values|) then None
    else
      match ApplyColumn(row, a[0].0, values[a[0].1 - 1])
      case None => None
      case Some(next) => ExecuteAssignments(next, a[1..], values)
  }

  datatype SqlResult = SqlError | Rows(updated: Option<User>)

  /** What the database does with the query and its parameter list. */
  function Execute(db: map<string, User>, q: UpdateQuery, values: seq<Value>): SqlResult {
    if !(1 <= q.wherePlaceholder <= |values|) || !values[q.wherePlaceholder - 1].VStr? then SqlError
    else
      var id := values[q.wherePlaceholder - 1].s;
      if id !in db then Rows(None)
      else match ExecuteAssignments(db[id], q.assignments, values)
        case None => SqlError
        case Some(row) => Rows(Some(row))
  }

  datatype Reply = Reply(status: nat, user: Option<User>, error: Option<string>)

  datatype Handled = Handled(reply: Reply, db: map<string, User>)

  const NoFieldsError := "No update fields provided"
  const NotFoundError := "User not found"
  const UpdateFailedError := "Failed to update user"

  function Put(db: map<string, User>, id: string, updates: Patch): (h: Handled)
    ensures h.reply.status in {200, 400, 404, 500}
    ensures h.reply.status == 200 <==> h.reply.user.Some?
    ensures h.reply.status != 200 ==> h.db == db && h.reply.error.Some?
  {
    var dbUpdates := Whitelisted(updates);
    if |dbUpdates| == 0 then Handled(Reply(400, None, Some(NoFieldsError)), db)
    else
      var q := BuildQuery(Columns(dbUpdates));
      match Execute(db, q, Values(dbUpdates) + [VStr(id)])
      case SqlError => Handled(Reply(500, None, Some(UpdateFailedError)), db)
      case Rows(None) => Handled(Reply(404, None, Some(NotFoundError)), db)
      case Rows(Some(row)) => Handled(Reply(200, Some(row), None), db[id := row])
  }

  /** The mapped fields of the body written over the stored row; every other field kept. */
  function Patched(row: User, updates: Patch): User {
    row.(
      role := updates.role.GetOr(row.role),
      isSuspended := updates.isSuspended.GetOr(row.isSuspended),
      dailyLimit := updates.dailyLimit.GetOr(row.dailyLimit),
      messageCount := updates.messageCount.GetOr(row.messageCount),
      lastCountReset := updates.lastCountReset.GetOr(row.lastCountReset))
  }

  function ApplyAll(row: User, d: seq<(string, Value)>): Option<User>
    decreases |d|
  {
    if d == [] then Some(row)
    else match ApplyColumn(row, d[0].0, d[0].1)
      case None => None
      case Some(next) => ApplyAll(next, d[1..])
  }

  lemma {:induction false} ExecuteIsApplyAll(row: User, d: seq<(string, Value)>, first: nat, values: seq<Value>)
    requires 1 <= first && first - 1 + |d| <= |values|
    requires forall i :: 0 <= i < |d| ==> values[first - 1 + i] == d[i].1
    ensures ExecuteAssignments(row, Numbered(Columns(d), first), values) == ApplyAll(row, d)
    decreases |d|
  {
    if d != [] {
      var a := Numbered(Columns(d), first);
      assert a[1..] == Numbered(Columns(d[1..]), first + 1);
      match ApplyColumn(row, d[0].0, d[0].1)
      case None =>
      case Some(next) =>
        ExecuteIsApplyAll(next, d[1..], first + 1, values);
    }
  }

  lemma {:induction false} ApplyAllAppend(row: User, a: seq<(string, Value)>, b: seq<(string, Value)>)
    ensures ApplyAll(row, a + b) == if ApplyAll(row, a).Some? then ApplyAll(ApplyAll(row, a).value, b) else None
    decreases |a|
  {
    if a == [] {
      assert a + b == b;
    } else {
      assert (a + b)[0] == a[0] && (a + b)[1..] == a[1..] + b;
      match ApplyColumn(row, a[0].0, a[0].1)
      case None =>
      case Some(next) => ApplyAllAppend(next, a[1..], b);
    }
  }

  lemma ApplyAllWhitelisted(row: User, updates: Patch)
    ensures ApplyAll(row, Whitelisted(updates)) == Some(Patched(row, updates))
  {
    var e1 := Entry("role", RoleValue(updates.role));
    var e2 := Entry("is_suspended", BoolValue(updates.isSuspended));
    var e3 := Entry("daily_limit", IntValue(updates.dailyLimit));
    var e4 := Entry("message_count", IntValue(updates.messageCount));
    var e5 := Entry("last_count_reset", StrValue(updates.lastCountReset));
    var r1 := row.(role := updates.role.GetOr(row.role));
    var r2 := r1.(isSuspended := updates.isSuspended.GetOr(row.isSuspended));
    var r3 := r2.(dailyLimit := updates.dailyLimit.GetOr(row.dailyLimit));
    var r4 := r3.(messageCount := updates.messageCount.GetOr(row.messageCount));
    var r5 := r4.(lastCountReset := updates.lastCountReset.GetOr(row.lastCountReset));
    assert ApplyAll(row, e1) == Some(r1);
    assert ApplyAll(r1, e2) == Some(r2);
    assert ApplyAll(r2, e3) == Some(r3);
    assert ApplyAll(r3, e4) == Some(r4);
    assert ApplyAll(r4, e5) == Some(r5);
    ApplyAllAppend(row, e1, e2);
    ApplyAllAppend(row, e1 + e2, e3);
    ApplyAllAppend(row, e1 + e2 + e3, e4);
    ApplyAllAppend(row, e1 + e2 + e3 + e4, e5);
  }

  /**
   * PUT answers 400 without touching the table when no mapped field is given,
   * 404 when the id is unknown, and otherwise 200 with the stored row updated
   * in exactly the mapped fields.
   */
  lemma PutEffect(db: map<string, User>, id: string, updates: Patch)
    ensures var h := Put(db, id, updates);
      && (h.reply.status == 400 <==> Whitelisted(updates) == [])
      && (h.reply.status == 404 <==> Whitelisted(updates) != [] && id !in db)
      && (h.reply.status == 200 <==> Whitelisted(updates) != [] && id in db)
      && (h.reply.status == 200 ==>
            h.reply.user == Some(Patched(db[id], updates)) && h.db == db[id := Patched(db[id], updates)])
      && (h.reply.status != 200 ==> h.db == db && h.reply.user.None?)
  {
    var d := Whitelisted(updates);
    if d != [] {
      var values := Values(d) + [VStr(id)];
      assert values[|d|] == VStr(id);
      if id in db {
        ExecuteIsApplyAll(db[id], d, 1, values);
        ApplyAllWhitelisted(db[id], updates);
      }
    }
  }

  /** The body gives at least one of the five mapped fields. */
  predicate MapsAField(updates: Patch) {
    || updates.role.Some? || updates.isSuspended.Some? || updates.dailyLimit.Some?
    || updates.messageCount.Some? || updates.lastCountReset.Some?
  }

  /** What PUT does, stated without the query: the reply and the table afterwards. */
  function PutOutcome(db: map<string, User>, id: string, updates: Patch): Handled {
    if !MapsAField(updates) then Handled(Reply(400, None, Some(NoFieldsError)), db)
    else if id !in db then Handled(Reply(404, None, Some(NotFoundError)), db)
    else
      var row := Patched(db[id], updates);
      Handled(Reply(200, Some(row), None), db[id := row])
  }

  /** The handler, query and all, behaves as its closed form says. */
  lemma PutClosedForm(db: map<string, User>, id: string, updates: Patch)
    ensures Put(db, id, updates) == PutOutcome(db, id, updates)
  {
    PutEffect(db, id, updates);
    assert Whitelisted(updates) == [] <==> !MapsAField(updates);
  }

  // ---------------------------------------------------------------------------
  // POST /api/users and DELETE /api/users/:id

  const NewUserDailyLimit := 20
  /** The balance column's default; the table definition is not part of this model. */
  const NewUserBalance := 0

  const IdRequiredError := "User ID is required"
  const CreateFailedError := "Failed to create user. It may already exist."

  function NewUser(id: string, today: string): User {
    User(id, RoleUser, false, NewUserDailyLimit, 0, today, NewUserBalance)
  }

  /** POST: a missing or empty id is refused; an existing id fails the insert. */
  function Post(db: map<string, User>, id: Option<string>, today: string): (h: Handled)
    ensures h.reply.status == 400 <==> id.None? || id.value == ""
    ensures h.reply.status == 500 <==> id.Some? && id.value != "" && id.value in db
    ensures h.reply.status == 201 ==>
      && id.Some? && id.value !in db
      && h.reply.user == Some(User(id.value, RoleUser, false, 20, 0, today, NewUserBalance))
      && h.db == db[id.value := h.reply.user.value]
    ensures h.reply.status != 201 ==> h.db == db
    ensures h.reply.status in {201, 400, 500}
  {
    if id.None? || id.value == "" then Handled(Reply(400, None, Some(IdRequiredError)), db)
    else if id.value in db then Handled(Reply(500, None, Some(CreateFailedError)), db)
    else
      var row := NewUser(id.value, today);
      Handled(Reply(201, Some(row), None), db[id.value := row])
  }

  /** DELETE: 404 when no row was deleted, else 204 and the row is gone. */
  function Delete(db: map<string, User>, id: string): (h: Handled)
    ensures h.reply.status == 404 <==> id !in db
    ensures h.reply.status == 204 <==> id in db
    ensures h.db == db - {id}
    ensures h.db.Keys == db.Keys - {id}
  {
    var rowCount := if id in db then 1 else 0;
    if rowCount == 0 then Handled(Reply(404, None, Some(NotFoundError)), db)
    else Handled(Reply(204, None, None), db - {id})
  }
}
