/** Building the `writes` array of a Firestore commit in reused scratch documents, against
    the array that a plain map over the writes yields. */
module ParseWrites {
  import opened Wrappers

  datatype Json =
    | Null
    | Str(s: string)
    | Raw(text: string)
    | Arr(items: seq<Json>)
    | Obj(fields: seq<Field>)

  datatype Field = Field(key: string, value: Json)

  /** A string that may be read as JSON: its characters, and what the parser finds by the
      first character; a tree is absent when the text does not parse. */
  datatype Parsed = ObjectText(fields: Option<seq<Field>>) | ArrayText(items: Option<seq<Json>>) | OtherText

  datatype Text = Text(chars: string, parsed: Parsed)

  datatype RootType = ObjectRoot | ArrayRoot | RawRoot

  function TreeOf(t: Text): (root: Option<Json>) {
    match t.parsed
    case ObjectText(Some(fields)) => Some(Obj(fields))
    case ArrayText(Some(items)) => Some(Arr(items))
    case OtherText => Some(Raw(t.chars))
    case _ => None
  }

  /** Adding an empty document adds `null`. */
  function Duplicate(root: Option<Json>): (j: Json) {
    match root
    case None => Null
    case Some(j) => j
  }

  class Document {
    var root: Option<Json>
    var rootType: RootType

    constructor ()
      ensures Valid() && root == None
    {
      root, rootType := None, ObjectRoot;
    }

    ghost predicate Valid()
      reads this
    {
      rootType == ObjectRoot && root.Some? ==> root.value.Obj?
    }

    function Fields(): (fs: seq<Field>)
      requires Valid()
      reads this
    {
      if rootType == ObjectRoot && root.Some? then root.value.fields else []
    }

    method Clear()
      modifies this
      ensures Valid() && root == None && rootType == old(rootType)
    {
      root := None;
    }

    /** A document of another kind is discarded first. */
    method Add(key: string, value: Json)
      requires Valid()
      modifies this
      ensures Valid() && rootType == ObjectRoot && root == Some(Obj(old(Fields()) + [Field(key, value)]))
    {
      if rootType != ObjectRoot {
        Clear();
      }
      rootType := ObjectRoot;
      var fields := if root.Some? then root.value.fields else [];
      root := Some(Obj(fields + [Field(key, value)]));
    }

    method SetData(t: Text)
      modifies this
      ensures t.chars != "" ==> Valid() && root == TreeOf(t)
      ensures t.chars != "" ==>
                Fields() == (if t.parsed.ObjectText? && t.parsed.fields.Some? then t.parsed.fields.value else [])
      ensures t.chars == "" ==> root == old(root) && rootType == old(rootType)
    {
      if t.chars != "" {
        root := TreeOf(t);
        rootType := match t.parsed
          case ObjectText(_) => ObjectRoot
          case ArrayText(_) => ArrayRoot
          case OtherText => RawRoot;
      }
    }
  }

  /** Adds a string under a key unless it is empty. */
  method AddString(json: Document, key: string, val: string) returns (added: bool)
    requires json.Valid()
    modifies json
    ensures json.Valid() && added == (val != "")
    ensures added ==> json.rootType == ObjectRoot && json.root == Some(Obj(old(json.Fields()) + [Field(key, Str(val))]))
    ensures !added ==> json.root == old(json.root) && json.rootType == old(json.rootType)
  {
    if |val| > 0 {
      json.Add(key, Str(val));
      return true;
    }
    return false;
  }

  method AddObject(json: Document, key: string, val: Document)
    requires json.Valid() && val.Valid() && json != val
    modifies json, val
    ensures json.Valid() && json.rootType == ObjectRoot
    ensures json.root == Some(Obj(old(json.Fields()) + [Field(key, Duplicate(old(val.root)))]))
    ensures val.Valid() && val.root == None && val.rootType == old(val.rootType)
  {
    json.Add(key, Duplicate(val.root));
    val.Clear();
  }

  class ArrayDocument {
    var root: Option<seq<Json>>

    constructor ()
      ensures root == None
    {
      root := None;
    }

    function Items(): (items: seq<Json>)
      reads this
    {
      if root.Some? then root.value else []
    }

    method Clear()
      modifies this
      ensures root == None
    {
      root := None;
    }

    method Add(value: Json)
      modifies this
      ensures root == Some(old(Items()) + [value])
    {
      root := Some(Items() + [value]);
    }
  }

  function DuplicateArray(root: Option<seq<Json>>): (j: Json) {
    match root
    case None => Null
    case Some(items) => Arr(items)
  }

  method AddArray(json: Document, key: string, arr: ArrayDocument)
    requires json.Valid()
    modifies json, arr
    ensures json.Valid() && arr.root == None
    ensures json.root == Some(Obj(old(json.Fields()) + [Field(key, DuplicateArray(old(arr.root)))]))
  {
    json.Add(key, DuplicateArray(arr.root));
    arr.Clear();
  }

  // ----------------------------------------------------------------- the data

  datatype TransformType = Undefined | SetToServerValue | Increment | Maximum | Minimum | AppendMissing | RemoveAll

  datatype FieldTransform = FieldTransform(fieldPath: string, kind: TransformType, content: Text)

  datatype WriteType = UndefinedWrite | UpdateWrite | DeleteWrite | TransformWrite

  datatype Write = Write(
    updateMasks: string, updateTransforms: FieldTransform, exists_: string, updateTime: string,
    kind: WriteType, updateContent: Text, updatePath: string, deletePath: string,
    transformPath: string, fieldTransforms: seq<FieldTransform>)

  function TransformKey(kind: TransformType): (key: string) {
    match kind
    case Undefined => ""
    case SetToServerValue => "setToServerValue"
    case Increment => "increment"
    case Maximum => "maximum"
    case Minimum => "minimum"
    case AppendMissing => "appendMissingElements"
    case RemoveAll => "removeAllFromArray"
  }

  function DocPath(base: string, path: string): (s: string) {
    base + (if path == "" || path[0] != '/' then "/" else "") + path
  }

  // ------------------------------------------------------- the plain map

  function OptField(key: string, j: Option<Json>): (fs: seq<Field>) {
    match j
    case None => []
    case Some(v) => [Field(key, v)]
  }

  function OptString(key: string, s: string): (fs: seq<Field>) {
    if s == "" then [] else [Field(key, Str(s))]
  }

  function ObjOf(fields: seq<Field>): (j: Option<Json>) {
    if fields == [] then None else Some(Obj(fields))
  }

  function TransformJson(t: FieldTransform): (j: Option<Json>) {
    if t.content.chars == "" then None
    else
      ObjOf(OptString("fieldPath", t.fieldPath) +
            (match t.kind
             case Undefined => []
             case SetToServerValue => [Field(TransformKey(t.kind), Str(t.content.chars))]
             case _ => [Field(TransformKey(t.kind), Duplicate(TreeOf(t.content)))]))
  }

  function TransformItems(ts: seq<FieldTransform>): (items: seq<Json>) {
    if ts == [] then []
    else
      TransformItems(ts[..|ts| - 1]) +
      (match TransformJson(ts[|ts| - 1])
       case None => []
       case Some(j) => [j])
  }

  // -------------------------------------------------------- lists in a string

  function TrimLeft(s: string): (r: string)
    ensures |r| <= |s| && r == s[|s| - |r|..]
    ensures r != "" ==> r[0] > ' '
  {
    if s == "" || s[0] > ' ' then s else TrimLeft(s[1..])
  }

  function TrimRight(s: string): (r: string)
    ensures r <= s && (r != "" ==> r[|r| - 1] > ' ')
  {
    if s == "" || s[|s| - 1] > ' ' then s else TrimRight(s[..|s| - 1])
  }

  function Trim(s: string): (r: string) { TrimRight(TrimLeft(s)) }

  predicate IsBlank(s: string) { forall i | 0 <= i < |s| :: s[i] <= ' ' }

  lemma {:induction false} TrimLeftIff(s: string)
    ensures TrimLeft(s) == "" <==> IsBlank(s)
  {
    if s != "" && s[0] <= ' ' {
      TrimLeftIff(s[1..]);
      assert forall i | 1 <= i < |s| :: s[i] == s[1..][i - 1];
    }
  }

  /** Trimming leaves nothing of a blank text, and else a part between two visible characters. */
  lemma TrimIff(s: string)
    ensures Trim(s) == "" <==> IsBlank(s)
    ensures Trim(s) != "" ==> Trim(s)[0] > ' ' && Trim(s)[|Trim(s)| - 1] > ' '
    ensures ',' !in s ==> ',' !in Trim(s)
  {
    hide TrimLeft, TrimRight, IsBlank;
    TrimLeftIff(s);
    var left := TrimLeft(s);
    var r := TrimRight(left);
    assert left == s[|s| - |left|..] && r == left[..|r|];
    assert ',' !in s ==> ',' !in left && ',' !in r;
    if left != "" {
      TrimRightKeeps(left);
    }
  }

  lemma {:induction false} TrimRightKeeps(s: string)
    requires s != "" && s[0] > ' '
    ensures TrimRight(s) != ""
    decreases |s|
  {
    if s[|s| - 1] <= ' ' {
      TrimRightKeeps(s[..|s| - 1]);
    }
  }

  function FirstComma(s: string): (k: nat)
    ensures k <= |s| && (k < |s| ==> s[k] == ',') && forall i | 0 <= i < k :: s[i] != ','
  {
    if s == "" || s[0] == ',' then 0 else 1 + FirstComma(s[1..])
  }

  function Kept(part: string): (ts: seq<string>) { if Trim(part) == "" then [] else [Trim(part)] }

  /** The parts between the commas, trimmed, without the blank ones. */
  function Tokens(s: string): (ts: seq<string>) {
    var k := FirstComma(s);
    if k < |s| then Kept(s[..k]) + Tokens(s[k + 1..]) else Kept(s)
  }

  predicate IsBlankList(s: string) { forall i | 0 <= i < |s| :: s[i] == ',' || s[i] <= ' ' }

  /** A list of nothing but commas and blanks is the only one without tokens. */
  lemma {:induction false} NoTokensIff(s: string)
    ensures Tokens(s) == [] <==> IsBlankList(s)
  {
    hide Trim, FirstComma;
    var k := FirstComma(s);
    if k < |s| {
      TrimIff(s[..k]);
      NoTokensIff(s[k + 1..]);
      assert forall i | k + 1 <= i < |s| :: s[i] == s[k + 1..][i - (k + 1)];
      assert forall i | 0 <= i < k :: s[i] == s[..k][i];
    } else {
      TrimIff(s);
    }
  }

  predicate IsPath(t: string) { t != "" && ',' !in t && t[0] > ' ' && t[|t| - 1] > ' ' }

  /** A token is not empty, holds no comma and neither begins nor ends with a blank. */
  lemma {:induction false} TokensAreTrimmed(s: string)
    ensures forall i | 0 <= i < |Tokens(s)| :: IsPath(Tokens(s)[i])
  {
    hide Trim, FirstComma;
    var k := FirstComma(s);
    var part := s[..k];
    TrimIff(part);
    assert ',' !in part;
    if k < |s| {
      TokensAreTrimmed(s[k + 1..]);
    } else {
      assert part == s;
    }
  }

  method SplitTokens(str: string) returns (tk: seq<string>)
    ensures tk == Tokens(str)
  {
    hide Kept, FirstComma;
    tk := [];
    var rest := str;
    var current := FirstComma(rest);
    while current < |rest|
      invariant current == FirstComma(rest)
      invariant Tokens(str) == tk + Tokens(rest)
      decreases |rest|
    {
      assert Tokens(rest) == Kept(rest[..current]) + Tokens(rest[current + 1..]);
      assert tk + (Kept(rest[..current]) + Tokens(rest[current + 1..])) == tk + Kept(rest[..current]) + Tokens(rest[current + 1..]);
      tk := tk + Kept(rest[..current]);
      rest := rest[current + 1..];
      current := FirstComma(rest);
    }
    tk := tk + Kept(rest);
  }

  /** A path as a caller may write it, with blanks on both sides; a part without a path is blank. */
  datatype Part = Part(before: string, path: string, after: string)

  function PartText(p: Part): (s: string) { p.before + p.path + p.after }

  predicate IsPart(p: Part) { IsBlank(p.before) && IsBlank(p.after) && (p.path == "" || IsPath(p.path)) && ',' !in PartText(p) }

  function ListText(parts: seq<Part>): (s: string)
    requires parts != []
  {
    if |parts| == 1 then PartText(parts[0]) else PartText(parts[0]) + "," + ListText(parts[1..])
  }

  function PathsOf(parts: seq<Part>): (ts: seq<string>) {
    if parts == [] then [] else (if parts[0].path == "" then [] else [parts[0].path]) + PathsOf(parts[1..])
  }

  lemma {:induction false} TrimLeftOf(before: string, s: string)
    requires IsBlank(before) && (s == "" || s[0] > ' ')
    ensures TrimLeft(before + s) == s
  {
    if before == "" {
      assert before + s == s;
    } else {
      assert (before + s)[1..] == before[1..] + s;
      TrimLeftOf(before[1..], s);
    }
  }

  lemma {:induction false} TrimRightOf(s: string, after: string)
    requires IsBlank(after) && (s == "" || s[|s| - 1] > ' ')
    ensures TrimRight(s + after) == s
    decreases |after|
  {
    if after == "" {
      assert s + after == s;
    } else {
      assert (s + after)[..|s + after| - 1] == s + after[..|after| - 1];
      TrimRightOf(s, after[..|after| - 1]);
    }
  }

  lemma PartIsTrimmed(p: Part)
    requires IsPart(p)
    ensures Trim(PartText(p)) == p.path
  {
    if p.path == "" {
      assert PartText(p) == p.before + p.after;
      assert IsBlank(p.before + p.after);
      TrimIff(p.before + p.after);
    } else {
      assert PartText(p) == p.before + (p.path + p.after);
      TrimLeftOf(p.before, p.path + p.after);
      TrimRightOf(p.path, p.after);
    }
  }

  lemma {:induction false} FirstCommaOf(part: string, rest: string)
    requires ',' !in part && (rest == "" || rest[0] == ',')
    ensures FirstComma(part + rest) == |part|
  {
    if part == "" {
      assert part + rest == rest;
    } else {
      assert (part + rest)[1..] == part[1..] + rest;
      FirstCommaOf(part[1..], rest);
    }
  }

  /** Whatever paths a caller joins with commas, with any blanks around them and any blank parts
      between them, are split into exactly these paths in their order. */
  lemma {:induction false} SplittingUndoesJoining(parts: seq<Part>)
    requires parts != [] && forall i | 0 <= i < |parts| :: IsPart(parts[i])
    ensures Tokens(ListText(parts)) == PathsOf(parts)
  {
    hide Trim, FirstComma, IsPart, PartText;
    var part := PartText(parts[0]);
    PartHasNoComma(parts[0]);
    PartIsTrimmed(parts[0]);
    if |parts| == 1 {
      FirstCommaOf(part, "");
      assert part + "" == part && parts[1..] == [];
    } else {
      var rest := ListText(parts[1..]);
      FirstCommaOf(part, "," + rest);
      var s := part + "," + rest;
      assert s == part + ("," + rest) && s[..|part|] == part && s[|part| + 1..] == rest;
      SplittingUndoesJoining(parts[1..]);
    }
  }

  lemma PartHasNoComma(p: Part)
    requires IsPart(p)
    ensures ',' !in PartText(p)
  {
  }

  function MaskJson(masks: string): (j: Option<Json>) {
    if Tokens(masks) == [] then None else Some(PathsJson(Tokens(masks)))
  }

  function PathsJson(paths: seq<string>): (j: Json) {
    Obj([Field("fieldPaths", Arr(seq(|paths|, i requires 0 <= i < |paths| => Str(paths[i]))))])
  }

  function PreconditionJson(w: Write): (j: Option<Json>) {
    ObjOf(if w.exists_ != "" then OptString("exists", w.exists_) else OptString("updateTime", w.updateTime))
  }

  predicate Updates(w: Write) { w.kind == UpdateWrite && w.updateContent.chars != "" && w.updatePath != "" }
  predicate Deletes(w: Write) { w.kind == DeleteWrite && w.deletePath != "" }
  predicate Transforms(w: Write) { w.kind == TransformWrite && w.transformPath != "" && w.fieldTransforms != [] }

  function OperationFields(base: string, w: Write): (fs: seq<Field>) {
    if Updates(w) then
      var content := if w.updateContent.parsed.ObjectText? && w.updateContent.parsed.fields.Some?
                     then w.updateContent.parsed.fields.value else [];
      [Field("update", Obj(content + OptString("name", DocPath(base, w.updatePath))))]
    else if Deletes(w) then OptString("delete", DocPath(base, w.deletePath))
    else if Transforms(w) then
      var items := TransformItems(w.fieldTransforms);
      [Field("transform", Obj(OptString("document", DocPath(base, w.transformPath)) +
                              [Field("fieldTransforms", if items == [] then Null else Arr(items))]))]
    else []
  }

  /** The JSON of one write, from that write alone; absent when it says nothing. */
  function WriteJson(base: string, w: Write): (j: Option<Json>) {
    ObjOf(OptField("updateMask", MaskJson(w.updateMasks))
          + OptField("updateTransforms", TransformJson(w.updateTransforms))
          + OptField("currentDocument", PreconditionJson(w))
          + OperationFields(base, w))
  }

  function Elements(base: string, ws: seq<Write>): (items: seq<Json>) {
    if ws == [] then []
    else
      Elements(base, ws[..|ws| - 1]) +
      (match WriteJson(base, ws[|ws| - 1])
       case None => []
       case Some(j) => [j])
  }

  /** Something a caller can check: the write has no mask but commas and blanks, no transform to
      state, no precondition and no complete operation. */
  predicate Blank(w: Write) {
    && IsBlankList(w.updateMasks)
    && (w.updateTransforms.content.chars == "" || (w.updateTransforms.kind == Undefined && w.updateTransforms.fieldPath == ""))
    && w.exists_ == "" && w.updateTime == ""
    && !Updates(w) && !Deletes(w) && !Transforms(w)
  }

  /** What an object holds under a key. */
  function Lookup(fields: seq<Field>, key: string): (j: Option<Json>) {
    if fields == [] then None else if fields[0].key == key then Some(fields[0].value) else Lookup(fields[1..], key)
  }

  lemma {:induction false} LookupInConcat(a: seq<Field>, b: seq<Field>, key: string)
    ensures Lookup(a + b, key) == if Lookup(a, key).Some? then Lookup(a, key) else Lookup(b, key)
  {
    if a == [] {
      assert a + b == b;
    } else {
      assert (a + b)[1..] == a[1..] + b;
      LookupInConcat(a[1..], b, key);
    }
  }

  lemma LookupOpt(name: string, j: Option<Json>, key: string)
    ensures Lookup(OptField(name, j), key) == if key == name then j else None
  {
  }

  lemma LookupString(name: string, s: string, key: string)
    ensures Lookup(OptString(name, s), key) == if key == name && s != "" then Some(Str(s)) else None
  {
  }

  predicate Applies(t: FieldTransform, kind: TransformType) { t.kind == kind && t.content.chars != "" }

  lemma TransformPart(t: FieldTransform, key: string)
    requires TransformJson(t).Some? && key != ""
    ensures t.content.chars != ""
    ensures Lookup(TransformJson(t).value.fields, key) ==
            if key == "fieldPath" && t.fieldPath != "" then Some(Str(t.fieldPath))
            else if key != TransformKey(t.kind) then None
            else if t.kind == SetToServerValue then Some(Str(t.content.chars)) else Some(Duplicate(TreeOf(t.content)))
  {
    hide TransformKey;
    var path := OptString("fieldPath", t.fieldPath);
    var rest := if t.kind == Undefined then []
                else [Field(TransformKey(t.kind), if t.kind == SetToServerValue then Str(t.content.chars) else Duplicate(TreeOf(t.content)))];
    assert TransformJson(t).value.fields == path + rest;
    LookupInConcat(path, rest, key);
    LookupString("fieldPath", t.fieldPath, key);
    NoKey();
  }

  lemma NoKey()
    ensures TransformKey(Undefined) == ""
  {
  }

  /** What the server reads in a transform: the field's path, and its operation under its own name. */
  lemma TransformSays(t: FieldTransform)
    requires TransformJson(t).Some?
    ensures
      var fields := TransformJson(t).value.fields;
      && Lookup(fields, "fieldPath") == (if t.fieldPath == "" then None else Some(Str(t.fieldPath)))
      && Lookup(fields, "setToServerValue") == (if Applies(t, SetToServerValue) then Some(Str(t.content.chars)) else None)
      && (Lookup(fields, "increment").Some? <==> Applies(t, Increment)) && (Lookup(fields, "maximum").Some? <==> Applies(t, Maximum))
      && (Lookup(fields, "minimum").Some? <==> Applies(t, Minimum))
      && (Lookup(fields, "appendMissingElements").Some? <==> Applies(t, AppendMissing))
      && (Lookup(fields, "removeAllFromArray").Some? <==> Applies(t, RemoveAll))
  {
    hide TransformJson, Lookup;
    KeysDiffer();
    TransformPart(t, "fieldPath");
    TransformPart(t, "setToServerValue");
    TransformPart(t, "increment");
    TransformPart(t, "maximum");
    TransformPart(t, "minimum");
    TransformPart(t, "appendMissingElements");
    TransformPart(t, "removeAllFromArray");
  }

  lemma KeysDiffer()
    ensures |"setToServerValue"| == 16 && |"increment"| == |"fieldPath"| == 9 && |"maximum"| == |"minimum"| == 7
    ensures |"appendMissingElements"| == 21 && |"removeAllFromArray"| == 18
    ensures "increment"[0] == 'i' && "fieldPath"[0] == 'f' && "maximum"[1] == 'a' && "minimum"[1] == 'i'
  {
  }

  /** An update holds the caller's fields as they are, and names the document, unless the caller's
      fields do. */
  lemma UpdateSays(base: string, w: Write)
    requires Updates(w) && WriteJson(base, w).Some?
    ensures
      var update := Lookup(WriteJson(base, w).value.fields, "update");
      var content := if w.updateContent.parsed.ObjectText? && w.updateContent.parsed.fields.Some?
                     then w.updateContent.parsed.fields.value else [];
      && update.Some? && update.value.Obj? && content <= update.value.fields
      && Lookup(update.value.fields, "name") ==
           if Lookup(content, "name").Some? then Lookup(content, "name") else Some(Str(DocPath(base, w.updatePath)))
  {
    hide DocPath, TransformJson, MaskJson, PreconditionJson;
    NamesDiffer();
    DocPathIs(base, w.updatePath);
    PartSays(base, w, "update");
    var content := if w.updateContent.parsed.ObjectText? && w.updateContent.parsed.fields.Some?
                   then w.updateContent.parsed.fields.value else [];
    LookupInConcat(content, OptString("name", DocPath(base, w.updatePath)), "name");
    LookupString("name", DocPath(base, w.updatePath), "name");
  }

  lemma OperationSays(base: string, w: Write, key: string)
    ensures var v := Lookup(OperationFields(base, w), key);
            && (key == "update" ==> (v.Some? <==> Updates(w)))
            && (key == "transform" ==> (v.Some? <==> Transforms(w)))
            && (key == "delete" ==> v == if Deletes(w) then Some(Str(DocPath(base, w.deletePath))) else None)
            && (key != "update" && key != "transform" && key != "delete" ==> v == None)
  {
    hide DocPath, TransformItems;
    NamesDiffer();
    DocPathIs(base, w.deletePath);
    LookupString("delete", DocPath(base, w.deletePath), key);
  }

  lemma NamesDiffer()
    ensures |"updateMask"| == 10 && |"updateTransforms"| == 16 && |"currentDocument"| == 15 && |"transform"| == 9
    ensures |"update"| == |"delete"| == 6 && "delete"[0] == 'd' && "update"[0] == 'u'
  {
  }

  /** What the server reads in an element: each part of the write under its own name. */
  lemma ElementSays(base: string, w: Write)
    requires WriteJson(base, w).Some?
    ensures
      var fields := WriteJson(base, w).value.fields;
      && Lookup(fields, "updateMask") == (if IsBlankList(w.updateMasks) then None else Some(PathsJson(Tokens(w.updateMasks))))
      && Lookup(fields, "updateTransforms") == TransformJson(w.updateTransforms)
      && Lookup(fields, "currentDocument") ==
           (if w.exists_ != "" then Some(Obj([Field("exists", Str(w.exists_))]))
            else if w.updateTime != "" then Some(Obj([Field("updateTime", Str(w.updateTime))])) else None)
      && (Lookup(fields, "update").Some? <==> Updates(w)) && (Lookup(fields, "transform").Some? <==> Transforms(w))
      && Lookup(fields, "delete") == (if Deletes(w) then Some(Str(DocPath(base, w.deletePath))) else None)
  {
    hide Tokens, TransformJson, OperationFields, IsBlankList, PathsJson, DocPath, Updates, Deletes, Transforms, Lookup, OptField;
    NoTokensIff(w.updateMasks);
    NamesDiffer();
    PartSays(base, w, "updateMask");
    PartSays(base, w, "updateTransforms");
    PartSays(base, w, "currentDocument");
    PartSays(base, w, "update");
    PartSays(base, w, "transform");
    PartSays(base, w, "delete");
  }

  lemma PartSays(base: string, w: Write, key: string)
    requires WriteJson(base, w).Some?
    ensures Lookup(WriteJson(base, w).value.fields, key) ==
            if key == "updateMask" && MaskJson(w.updateMasks).Some? then MaskJson(w.updateMasks)
            else if key == "updateTransforms" && TransformJson(w.updateTransforms).Some? then TransformJson(w.updateTransforms)
            else if key == "currentDocument" && PreconditionJson(w).Some? then PreconditionJson(w)
            else Lookup(OperationFields(base, w), key)
    ensures var v := Lookup(OperationFields(base, w), key);
            && (key == "update" ==> (v.Some? <==> Updates(w)))
            && (key == "transform" ==> (v.Some? <==> Transforms(w)))
            && (key == "delete" ==> v == if Deletes(w) then Some(Str(DocPath(base, w.deletePath))) else None)
            && (key != "update" && key != "transform" && key != "delete" ==> v == None)
  {
    hide TransformJson, MaskJson, PreconditionJson, OperationFields, Lookup, OptField, DocPath, Updates, Deletes, Transforms;
    var a := OptField("updateMask", MaskJson(w.updateMasks));
    var b := OptField("updateTransforms", TransformJson(w.updateTransforms));
    var c := OptField("currentDocument", PreconditionJson(w));
    LookupOpt("updateMask", MaskJson(w.updateMasks), key);
    LookupOpt("updateTransforms", TransformJson(w.updateTransforms), key);
    LookupOpt("currentDocument", PreconditionJson(w), key);
    LookupInConcat(a + b + c, OperationFields(base, w), key);
    LookupInConcat(a + b, c, key);
    LookupInConcat(a, b, key);
    OperationSays(base, w, key);
  }

  /** A document's path is the base and the path with one slash between them, whether the caller
      wrote it or not. */
  lemma DocPathIs(base: string, path: string)
    ensures (path == "" || path[0] != '/') ==> DocPath(base, path) == base + "/" + path == DocPath(base, "/" + path)
    ensures DocPath(base, path) != ""
  {
    assert base + "" + ("/" + path) == base + "/" + path;
  }

  lemma BlankIff(base: string, w: Write)
    ensures WriteJson(base, w).None? <==> Blank(w)
  {
    hide Tokens, IsBlankList;
    NoTokensIff(w.updateMasks);
  }

  /** A write that says nothing is possible, and its element is missing. */
  lemma BlankWriteIsDropped(base: string)
    ensures var nothing := FieldTransform("", Undefined, Text("", OtherText));
            var w := Write(" , ", nothing, "", "", UndefinedWrite, Text("", OtherText), "", "", "", []);
            Blank(w) && Elements(base, [w]) == []
  {
    hide WriteJson, Blank;
    var nothing := FieldTransform("", Undefined, Text("", OtherText));
    var w := Write(" , ", nothing, "", "", UndefinedWrite, Text("", OtherText), "", "", "", []);
    OnlyMasksAreBlank(w);
    BlankIff(base, w);
    assert [w][..0] == [];
  }

  lemma OnlyMasksAreBlank(w: Write)
    requires w.updateMasks == " , " && w.kind == UndefinedWrite && w.exists_ == "" && w.updateTime == ""
    requires w.updateTransforms.content.chars == ""
    ensures Blank(w)
  {
  }

  /** There is one element per write, in order, exactly when no write is blank. */
  lemma {:induction false} OneElementPerWriteIff(base: string, ws: seq<Write>)
    ensures |Elements(base, ws)| <= |ws|
    ensures |Elements(base, ws)| == |ws| <==> forall i | 0 <= i < |ws| :: !Blank(ws[i])
    ensures |Elements(base, ws)| == |ws| ==>
              forall i | 0 <= i < |ws| :: WriteJson(base, ws[i]) == Some(Elements(base, ws)[i])
  {
    hide Blank, WriteJson;
    if ws != [] {
      var front, last := ws[..|ws| - 1], ws[|ws| - 1];
      OneElementPerWriteIff(base, front);
      BlankIff(base, last);
      var items, all := Elements(base, front), Elements(base, ws);
      assert all == items + (match WriteJson(base, last) case None => [] case Some(j) => [j]);
      assert forall i | 0 <= i < |front| :: ws[i] == front[i];
      if !Blank(last) && |items| == |front| {
        assert forall i | 0 <= i < |front| :: all[i] == items[i] && WriteJson(base, ws[i]) == Some(all[i]);
        assert all[|front|] == WriteJson(base, last).value;
      } else if |items| == |front| {
        assert ws[|front|] == last;
      }
    }
  }

  // --------------------------------------------------- the shared scratch

  /** Fills the scratch; `false` means that it was left empty. */
  method SetFieldTransform(json: Document, t: FieldTransform) returns (hasTransform: bool)
    requires json.Valid()
    modifies json
    ensures json.Valid() && json.root == TransformJson(t)
    ensures hasTransform <==> json.root.Some?
  {
    hasTransform := false;
    json.Clear();
    if |t.content.chars| > 0 {
      hasTransform := AddString(json, "fieldPath", t.fieldPath);
      ghost var path := OptString("fieldPath", t.fieldPath);
      assert json.Fields() == path && path + [] == path;
      if t.kind == SetToServerValue {
        var added := AddString(json, "setToServerValue", t.content.chars);
        hasTransform := hasTransform || added;
      } else if t.kind != Undefined {
        var js := new Document();
        js.SetData(t.content);
        json.Add(TransformKey(t.kind), Duplicate(js.root));
        hasTransform := true;
      }
    }
  }

  /** Where the operation's fields go: the document of the current write. */
  method AddOperation(session: Document, arr: ArrayDocument, json: Document, base: string, w: Write)
    requires session.Valid() && json.Valid() && session != json && json.root == None
    requires session.root == ObjOf(session.Fields())
    modifies session, arr, json
    ensures session.Valid() && json.Valid() && json.root == None
    ensures session.root == ObjOf(old(session.Fields()) + OperationFields(base, w))
  {
    assert session.Fields() + [] == session.Fields();
    if |w.updateContent.chars| > 0 && |w.updatePath| > 0 && w.kind == UpdateWrite {
      json.SetData(w.updateContent);
      var added := AddString(json, "name", DocPath(base, w.updatePath));
      AddObject(session, "update", json);
    } else if |w.deletePath| > 0 && w.kind == DeleteWrite {
      var added := AddString(session, "delete", DocPath(base, w.deletePath));
    } else if |w.transformPath| > 0 && |w.fieldTransforms| > 0 && w.kind == TransformWrite {
      AddTransforms(arr, json, w.fieldTransforms);
      var added := AddString(json, "document", DocPath(base, w.transformPath));
      assert json.Fields() == OptString("document", DocPath(base, w.transformPath));
      AddArray(json, "fieldTransforms", arr);
      AddObject(session, "transform", json);
    }
  }

  /** Collects the transforms in the array, each built in the same scratch. */
  method AddTransforms(arr: ArrayDocument, json: Document, ts: seq<FieldTransform>)
    requires json.Valid()
    modifies arr, json
    ensures json.Valid() && json.root == None
    ensures arr.root == if TransformItems(ts) == [] then None else Some(TransformItems(ts))
  {
    arr.Clear();
    json.Clear();
    assert ts[..0] == [];
    for j := 0 to |ts|
      invariant json.Valid() && json.root == None
      invariant arr.root == if TransformItems(ts[..j]) == [] then None else Some(TransformItems(ts[..j]))
    {
      assert ts[..j + 1][..j] == ts[..j];
      assert TransformItems(ts[..j]) + [] == TransformItems(ts[..j]);
      var has := SetFieldTransform(json, ts[j]);
      if has {
        arr.Add(Duplicate(json.root));
        json.Clear();
      }
    }
    assert ts[..|ts|] == ts;
  }

  /** One write, built in the cleared session document with the shared scratch. */
  method BuildWrite(session: Document, arr: ArrayDocument, json: Document, base: string, w: Write)
    requires session.Valid() && json.Valid() && session != json
    requires json.root == None && session.root == None
    modifies session, arr, json
    ensures session.Valid() && json.Valid()
    ensures json.root == None
    ensures session.root == WriteJson(base, w)
  {
    hide TransformJson, OperationFields, Tokens;
    NoTokensIff("");
    if |w.updateMasks| > 0 {
      var tokens := SplitTokens(w.updateMasks);
      if |tokens| > 0 {
        session.Add("updateMask", PathsJson(tokens));
      }
    }
    ghost var masks := OptField("updateMask", MaskJson(w.updateMasks));
    assert session.Fields() == masks && masks + [] == masks;
    var has := SetFieldTransform(json, w.updateTransforms);
    if has {
      AddObject(session, "updateTransforms", json);
    }
    ghost var transforms := OptField("updateTransforms", TransformJson(w.updateTransforms));
    assert session.Fields() == masks + transforms && (masks + transforms) + [] == masks + transforms;
    assert json.Fields() == [];
    var hasCurDoc := AddString(json, "exists", w.exists_);
    if !hasCurDoc {
      hasCurDoc := AddString(json, "updateTime", w.updateTime);
    }
    assert [] + [Field("exists", Str(w.exists_))] == [Field("exists", Str(w.exists_))];
    assert [] + [Field("updateTime", Str(w.updateTime))] == [Field("updateTime", Str(w.updateTime))];
    assert json.root == PreconditionJson(w);
    if hasCurDoc {
      AddObject(session, "currentDocument", json);
    }
    assert session.Fields() == masks + transforms + OptField("currentDocument", PreconditionJson(w));
    AddOperation(session, arr, json, base, w);
  }

  /** The second pass: the texts that are not empty become the elements of the array. */
  method AddTexts(arr: ArrayDocument, texts: array<Option<Json>>, base: string, writes: seq<Write>)
    requires arr.root == None && texts.Length == |writes|
    requires forall k | 0 <= k < |writes| :: texts[k] == WriteJson(base, writes[k])
    modifies arr
    ensures var items := Elements(base, writes); arr.root == if items == [] then None else Some(items)
  {
    hide WriteJson;
    assert writes[..0] == [];
    for i := 0 to |writes|
      invariant forall k | 0 <= k < |writes| :: texts[k] == WriteJson(base, writes[k])
      invariant var items := Elements(base, writes[..i]); arr.root == if items == [] then None else Some(items)
    {
      assert writes[..i + 1][..i] == writes[..i];
      assert Elements(base, writes[..i]) + [] == Elements(base, writes[..i]);
      if texts[i].Some? {
        arr.Add(texts[i].value);
      }
    }
    assert writes[..|writes|] == writes;
  }

  /** The request's document after all writes. The text of each write is kept between two
      passes; the text of an empty document is empty, and an empty text is not added. */
  method BuildWrites(session: Document, arr: ArrayDocument, base: string, writes: seq<Write>)
    requires session.Valid()
    modifies session, arr
    ensures session.Valid()
    ensures writes == [] ==> session.root == old(session.root) && arr.root == old(arr.root)
    ensures writes != [] ==>
              && arr.root == None
              && var items := Elements(base, writes);
                 session.root == Some(Obj([Field("writes", if items == [] then Null else Arr(items))]))
  {
    hide WriteJson, Elements;
    if |writes| == 0 {
      return;
    }
    var json := new Document();
    var texts := new Option<Json>[|writes|](_ => None);
    session.Clear();
    arr.Clear();
    for i := 0 to |writes|
      invariant session.Valid() && json.Valid() && fresh(json) && fresh(texts) && texts.Length == |writes|
      invariant json.root == None && session.root == None && arr.root == None
      invariant forall k | 0 <= k < i :: texts[k] == WriteJson(base, writes[k])
    {
      BuildWrite(session, arr, json, base, writes[i]);
      texts[i] := session.root;
      session.Clear();
      arr.Clear();
    }
    AddTexts(arr, texts, base, writes);
    assert session.Fields() == [];
    ghost var items := Elements(base, writes);
    ghost var all := Field("writes", if items == [] then Null else Arr(items));
    assert [] + [all] == [all];
    AddArray(session, "writes", arr);
  }
}
