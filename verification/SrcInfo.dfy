/** The `.SRCINFO` parser of paur-aur/src/srcinfo.rs. */
module SrcInfo {
  import opened Options
  import opened Text

  // -------- records --------

  datatype ScalarField = PkgVer | PkgRel | Epoch | PkgDesc | Url

  datatype ListField =
    | Arch | License | Depends | MakeDepends | CheckDepends | OptDepends | Source
    | Sha256Sums | Sha512Sums | B2Sums | Provides | Conflicts | Replaces

  datatype PkgInfo = PkgInfo(
    pkgname: seq<string>,
    pkgver: Option<string>,
    pkgrel: Option<string>,
    epoch: Option<string>,
    pkgdesc: Option<string>,
    arch: seq<string>,
    url: Option<string>,
    license: seq<string>,
    depends: seq<string>,
    makedepends: seq<string>,
    checkdepends: seq<string>,
    optdepends: seq<string>,
    source: seq<string>,
    sha256sums: seq<string>,
    sha512sums: seq<string>,
    b2sums: seq<string>,
    provided: seq<string>,
    conflicts: seq<string>,
    replaced: seq<string>)
  {
    function Scalar(f: ScalarField): Option<string> {
      match f
      case PkgVer => pkgver
      case PkgRel => pkgrel
      case Epoch => epoch
      case PkgDesc => pkgdesc
      case Url => url
    }

    function List(f: ListField): seq<string> {
      match f
      case Arch => arch
      case License => license
      case Depends => depends
      case MakeDepends => makedepends
      case CheckDepends => checkdepends
      case OptDepends => optdepends
      case Source => source
      case Sha256Sums => sha256sums
      case Sha512Sums => sha512sums
      case B2Sums => b2sums
      case Provides => provided
      case Conflicts => conflicts
      case Replaces => replaced
    }

    function WithScalar(f: ScalarField, v: Option<string>): (r: PkgInfo)
      ensures r.Scalar(f) == v && r.pkgname == pkgname
      ensures forall g: ScalarField | g != f :: r.Scalar(g) == Scalar(g)
      ensures forall g: ListField :: r.List(g) == List(g)
    {
      match f
      case PkgVer => this.(pkgver := v)
      case PkgRel => this.(pkgrel := v)
      case Epoch => this.(epoch := v)
      case PkgDesc => this.(pkgdesc := v)
      case Url => this.(url := v)
    }

    function WithList(f: ListField, v: seq<string>): (r: PkgInfo)
      ensures r.List(f) == v && r.pkgname == pkgname
      ensures forall g: ListField | g != f :: r.List(g) == List(g)
      ensures forall g: ScalarField :: r.Scalar(g) == Scalar(g)
    {
      match f
      case Arch => this.(arch := v)
      case License => this.(license := v)
      case Depends => this.(depends := v)
      case MakeDepends => this.(makedepends := v)
      case CheckDepends => this.(checkdepends := v)
      case OptDepends => this.(optdepends := v)
      case Source => this.(source := v)
      case Sha256Sums => this.(sha256sums := v)
      case Sha512Sums => this.(sha512sums := v)
      case B2Sums => this.(b2sums := v)
      case Provides => this.(provided := v)
      case Conflicts => this.(conflicts := v)
      case Replaces => this.(replaced := v)
    }
  }

  /** Renaming leaves every field alone. */
  lemma RenameKeepsFields(info: PkgInfo, names: seq<string>)
    ensures forall f: ScalarField :: info.(pkgname := names).Scalar(f) == info.Scalar(f)
    ensures forall f: ListField :: info.(pkgname := names).List(f) == info.List(f)
  {
  }

  const DEFAULT_INFO :=
    PkgInfo([], None, None, None, None, [], None, [], [], [], [], [], [], [], [], [], [], [], [])

  /** Two records are the same when they agree field by field. */
  ghost predicate SameFields(a: PkgInfo, b: PkgInfo) {
    && a.pkgname == b.pkgname
    && (forall f: ScalarField :: a.Scalar(f) == b.Scalar(f))
    && (forall f: ListField :: a.List(f) == b.List(f))
  }

  lemma FieldsDecide(a: PkgInfo, b: PkgInfo)
    requires SameFields(a, b)
    ensures a == b
  {
    assert a.Scalar(PkgVer) == b.Scalar(PkgVer) && a.Scalar(PkgRel) == b.Scalar(PkgRel) && a.Scalar(Epoch) == b.Scalar(Epoch);
    assert a.Scalar(PkgDesc) == b.Scalar(PkgDesc) && a.Scalar(Url) == b.Scalar(Url);
    assert a.List(Arch) == b.List(Arch) && a.List(License) == b.List(License) && a.List(Depends) == b.List(Depends);
    assert a.List(MakeDepends) == b.List(MakeDepends) && a.List(CheckDepends) == b.List(CheckDepends);
    assert a.List(OptDepends) == b.List(OptDepends) && a.List(Source) == b.List(Source);
    assert a.List(Sha256Sums) == b.List(Sha256Sums) && a.List(Sha512Sums) == b.List(Sha512Sums);
    assert a.List(B2Sums) == b.List(B2Sums) && a.List(Provides) == b.List(Provides);
    assert a.List(Conflicts) == b.List(Conflicts) && a.List(Replaces) == b.List(Replaces);
  }

  // -------- merging --------

  function Either(over: Option<string>, under: Option<string>): Option<string> {
    if over.Some? then over else under
  }

  function EitherList(over: seq<string>, under: seq<string>): seq<string> {
    if over != [] then over else under
  }

  /** `merge_from`: `under` with every field that `over` has set taken from `over`. */
  function Merge(under: PkgInfo, over: PkgInfo): PkgInfo {
    PkgInfo(
      EitherList(over.pkgname, under.pkgname),
      Either(over.pkgver, under.pkgver),
      Either(over.pkgrel, under.pkgrel),
      Either(over.epoch, under.epoch),
      Either(over.pkgdesc, under.pkgdesc),
      EitherList(over.arch, under.arch),
      Either(over.url, under.url),
      EitherList(over.license, under.license),
      EitherList(over.depends, under.depends),
      EitherList(over.makedepends, under.makedepends),
      EitherList(over.checkdepends, under.checkdepends),
      EitherList(over.optdepends, under.optdepends),
      EitherList(over.source, under.source),
      EitherList(over.sha256sums, under.sha256sums),
      EitherList(over.sha512sums, under.sha512sums),
      EitherList(over.b2sums, under.b2sums),
      EitherList(over.provided, under.provided),
      EitherList(over.conflicts, under.conflicts),
      EitherList(over.replaced, under.replaced))
  }

  /** Whichever field it is, the record on top decides if it has the field, and the one below otherwise. */
  lemma MergeByField(under: PkgInfo, over: PkgInfo)
    ensures forall f: ScalarField ::
              Merge(under, over).Scalar(f) == if over.Scalar(f).Some? then over.Scalar(f) else under.Scalar(f)
    ensures forall f: ListField ::
              Merge(under, over).List(f) == if over.List(f) != [] then over.List(f) else under.List(f)
    ensures Merge(under, over).pkgname == if over.pkgname != [] then over.pkgname else under.pkgname
  {
    forall f: ScalarField
      ensures Merge(under, over).Scalar(f) == if over.Scalar(f).Some? then over.Scalar(f) else under.Scalar(f)
    {
      MergeScalar(under, over, f);
    }
    forall f: ListField
      ensures Merge(under, over).List(f) == if over.List(f) != [] then over.List(f) else under.List(f)
    {
      MergeList(under, over, f);
    }
  }

  lemma MergeScalar(under: PkgInfo, over: PkgInfo, f: ScalarField)
    ensures Merge(under, over).Scalar(f) == if over.Scalar(f).Some? then over.Scalar(f) else under.Scalar(f)
  {
    match f
    case PkgVer =>
    case _ =>
  }

  lemma MergeList(under: PkgInfo, over: PkgInfo, f: ListField)
    ensures Merge(under, over).List(f) == if over.List(f) != [] then over.List(f) else under.List(f)
  {
    match f
    case Arch =>
    case _ =>
  }

  /** Overrides can be layered in any grouping, twice is once, and the empty record changes nothing. */
  lemma MergeLaws(a: PkgInfo, b: PkgInfo, c: PkgInfo)
    ensures Merge(Merge(a, b), c) == Merge(a, Merge(b, c))
    ensures Merge(a, a) == a
    ensures Merge(a, DEFAULT_INFO) == a && Merge(DEFAULT_INFO, a) == a
    ensures Merge(a, Merge(a, b)) == Merge(a, b)
  {
  }

  // -------- one line --------

  datatype Token = Blank | Entry(key: string, values: seq<string>) | Malformed

  predicate IsQuote(c: char) {
    c == '"' || c == '\''
  }

  function CutComment(raw: string): string {
    match IndexOf(raw, '#')
    case None => raw
    case Some(i) => raw[..i]
  }

  /** What is left of a line without its comment and surrounding white space. */
  function Content(raw: string): string {
    Trim(CutComment(raw))
  }

  /** Where "= (" starts in a line that ends with ')'. */
  function ArrayAt(line: string): Option<nat> {
    if line != "" && line[|line| - 1] == ')' then Find(line[..|line| - 1], "= (") else None
  }

  function Tokenise(raw: string): Token {
    var line := Content(raw);
    if line == "" then Blank
    else
      match ArrayAt(line)
      case Some(i) =>
        Entry(Trim(line[..i]), Words(line[i + 3..|line| - 1]))
      case None =>
        match IndexOf(line, '=')
        case Some(i) => Entry(Trim(line[..i]), [TrimBy(Trim(line[i + 1..]), IsQuote)])
        case None => Malformed
  }

  /** A line is malformed exactly when something is left of it and that has no '='. */
  lemma MalformedIff(raw: string)
    ensures Tokenise(raw).Malformed? <==> Content(raw) != "" && Lacks(Content(raw), '=')
    ensures Tokenise(raw).Blank? <==> Content(raw) == ""
  {
    var line := Content(raw);
    IndexOfSpec(line, '=');
    if line != "" && ArrayAt(line).Some? {
      var i := ArrayAt(line).value;
      FindFromSpec(line[..|line| - 1], "= (", 0);
      assert line[i] == line[..|line| - 1][i..i + 3][0];
    }
  }

  // -------- what a list of entries means --------

  type KeyValue = t: Token | t.Entry? witness Entry("", [])

  /** A pkgname line with a value. */
  predicate NamesPackage(e: KeyValue) {
    e.key == "pkgname" && e.values != []
  }

  /** The packages named so far, in order. */
  function Names(es: seq<KeyValue>): seq<string> {
    if es == [] then []
    else
      var last := es[|es| - 1];
      Names(es[..|es| - 1]) + if NamesPackage(last) then [last.values[0]] else []
  }

  /** The block a further line belongs to: the package named last, the base before the second name. */
  function Block(es: seq<KeyValue>): Option<string> {
    var names := Names(es);
    if |names| < 2 then None else Some(names[|names| - 1])
  }

  /** The field a key belongs to; pkgname, pkgbase and unknown keys belong to none. */
  datatype Field = OneValue(scalar: ScalarField) | Many(list: ListField) | NoField

  function FieldOf(key: string): Field {
    if key == "pkgver" then OneValue(PkgVer)
    else if key == "pkgrel" then OneValue(PkgRel)
    else if key == "epoch" then OneValue(Epoch)
    else if key == "pkgdesc" then OneValue(PkgDesc)
    else if key == "url" then OneValue(Url)
    else if key == "arch" then Many(Arch)
    else if key == "license" then Many(License)
    else if key == "depends" then Many(Depends)
    else if key == "makedepends" then Many(MakeDepends)
    else if key == "checkdepends" then Many(CheckDepends)
    else if key == "optdepends" then Many(OptDepends)
    else if key == "source" then Many(Source)
    else if key == "sha256sums" then Many(Sha256Sums)
    else if key == "sha512sums" then Many(Sha512Sums)
    else if key == "b2sums" then Many(B2Sums)
    else if key == "provides" then Many(Provides)
    else if key == "conflicts" then Many(Conflicts)
    else if key == "replaces" then Many(Replaces)
    else NoField
  }

  /** The key a field is written under. */
  function KeyOf(field: Field): string
    requires field != NoField
  {
    match field
    case OneValue(f) =>
      (match f
       case PkgVer => "pkgver"
       case PkgRel => "pkgrel"
       case Epoch => "epoch"
       case PkgDesc => "pkgdesc"
       case Url => "url")
    case Many(f) =>
      match f
      case Arch => "arch"
      case License => "license"
      case Depends => "depends"
      case MakeDepends => "makedepends"
      case CheckDepends => "checkdepends"
      case OptDepends => "optdepends"
      case Source => "source"
      case Sha256Sums => "sha256sums"
      case Sha512Sums => "sha512sums"
      case B2Sums => "b2sums"
      case Provides => "provides"
      case Conflicts => "conflicts"
      case Replaces => "replaces"
  }

  /** Each field has its own key, and no other key reaches it; pkgname and pkgbase reach none. */
  lemma KeysAreFields(key: string, field: Field)
    requires field != NoField
    ensures FieldOf(key) == field <==> key == KeyOf(field)
    ensures FieldOf("pkgname") == NoField && FieldOf("pkgbase") == NoField
  {
  }

  function First(values: seq<string>): Option<string> {
    if values == [] then None else Some(values[0])
  }

  /** The value of the last line for field `f` among the lines of block `o`. */
  function OwnScalar(es: seq<KeyValue>, o: Option<string>, f: ScalarField): Option<string> {
    if es == [] then None
    else
      var front, last := es[..|es| - 1], es[|es| - 1];
      if Block(front) == o && FieldOf(last.key) == OneValue(f) then (if last.values == [] then None else Some(last.values[0]))
      else OwnScalar(front, o, f)
  }

  /** All values for field `f`, in order, from the lines of block `o`, however often it is reopened. */
  function OwnList(es: seq<KeyValue>, o: Option<string>, f: ListField): seq<string> {
    if es == [] then []
    else
      var front, last := es[..|es| - 1], es[|es| - 1];
      OwnList(front, o, f) + if Block(front) == o && FieldOf(last.key) == Many(f) then last.values else []
  }

  /** Whether a pkgname line after `es` names the base: the first one does, and a repetition of an open block's name. */
  predicate NamesBase(es: seq<KeyValue>, e: KeyValue) {
    NamesPackage(e) && (Names(es) == [] || Block(es) == Some(e.values[0]))
  }

  function BaseNames(es: seq<KeyValue>): seq<string> {
    if es == [] then []
    else
      var front, last := es[..|es| - 1], es[|es| - 1];
      if NamesBase(front, last) then last.values else BaseNames(front)
  }

  /** The packages that have a block of their own: those named when another was named before. */
  function Blocks(es: seq<KeyValue>): set<string> {
    if es == [] then {}
    else
      var front, last := es[..|es| - 1], es[|es| - 1];
      Blocks(front) + if NamesPackage(last) && Names(front) != [] then {last.values[0]} else {}
  }

  /** A record holds what the lines of block `o` say. */
  ghost predicate Own(info: PkgInfo, es: seq<KeyValue>, o: Option<string>) {
    && (forall f: ScalarField :: info.Scalar(f) == OwnScalar(es, o, f))
    && (forall f: ListField :: info.List(f) == OwnList(es, o, f))
  }

  ghost predicate IsBase(base: PkgInfo, es: seq<KeyValue>) {
    Own(base, es, None) && base.pkgname == BaseNames(es)
  }

  /** The record of a package: its own value where it has one, else that of the base. */
  ghost predicate IsPackage(info: PkgInfo, base: PkgInfo, es: seq<KeyValue>, name: string) {
    && info.pkgname == base.pkgname
    && (forall f: ScalarField ::
          info.Scalar(f) == if OwnScalar(es, Some(name), f).Some? then OwnScalar(es, Some(name), f) else base.Scalar(f))
    && (forall f: ListField ::
          info.List(f) == if OwnList(es, Some(name), f) != [] then OwnList(es, Some(name), f) else base.List(f))
  }

  datatype SrcInfo = SrcInfo(base: PkgInfo, packages: map<string, PkgInfo>)

  datatype ParseError = ParseError(line: nat, content: string)

  ghost predicate Means(info: SrcInfo, es: seq<KeyValue>) {
    && IsBase(info.base, es)
    && info.packages.Keys == Blocks(es)
    && forall n | n in info.packages :: IsPackage(info.packages[n], info.base, es, n)
  }

  function Tokens(lines: seq<string>): (ts: seq<Token>)
    ensures |ts| == |lines| && forall i | 0 <= i < |lines| :: ts[i] == Tokenise(lines[i])
  {
    seq(|lines|, i requires 0 <= i < |lines| => Tokenise(lines[i]))
  }

  function Entries(ts: seq<Token>): seq<KeyValue> {
    if ts == [] then []
    else
      var t := ts[|ts| - 1];
      Entries(ts[..|ts| - 1]) + if t.Entry? then [t] else []
  }

  predicate NoMalformed(ts: seq<Token>) {
    forall i | 0 <= i < |ts| :: !ts[i].Malformed?
  }

  /** The entries of a text, and whether every line of it can be read. */
  function EntriesOf(input: string): seq<KeyValue> {
    Entries(Tokens(Lines(input)))
  }

  predicate Readable(input: string) {
    NoMalformed(Tokens(Lines(input)))
  }

  // -------- the parser --------

  /** Between two lines: the maps hold what the entries so far say, not yet merged. */
  ghost predicate Reads(es: seq<KeyValue>, base: PkgInfo, packages: map<string, PkgInfo>, current: Option<string>) {
    && IsBase(base, es)
    && current == Block(es)
    && packages.Keys == Blocks(es)
    && forall n | n in packages :: packages[n].pkgname == [] && Own(packages[n], es, Some(n))
  }

  /** One more line. */
  lemma OneMore(es: seq<KeyValue>, e: KeyValue)
    ensures Names(es + [e]) == Names(es) + if NamesPackage(e) then [e.values[0]] else []
    ensures Block(es + [e]) == if NamesPackage(e) && Names(es) != [] then Some(e.values[0]) else Block(es)
    ensures Blocks(es + [e]) == Blocks(es) + if NamesPackage(e) && Names(es) != [] then {e.values[0]} else {}
    ensures BaseNames(es + [e]) == if NamesBase(es, e) then e.values else BaseNames(es)
    ensures forall o, f :: OwnScalar(es + [e], o, f) ==
              if Block(es) == o && FieldOf(e.key) == OneValue(f) then First(e.values) else OwnScalar(es, o, f)
    ensures forall o, f :: OwnList(es + [e], o, f) ==
              OwnList(es, o, f) + if Block(es) == o && FieldOf(e.key) == Many(f) then e.values else []
  {
    assert (es + [e])[..|es|] == es;
  }

  lemma {:induction false} OpenBlockIsKnown(es: seq<KeyValue>)
    ensures Block(es).Some? ==> Block(es).value in Blocks(es) && Names(es) != []
  {
    if es != [] {
      OpenBlockIsKnown(es[..|es| - 1]);
      OneMore(es[..|es| - 1], es[|es| - 1]);
      assert es == es[..|es| - 1] + [es[|es| - 1]];
    }
  }

  /** A block without a name of its own has no lines. */
  lemma {:induction false} NoLines(es: seq<KeyValue>, n: string)
    requires n !in Blocks(es)
    ensures Own(DEFAULT_INFO, es, Some(n))
  {
    if es != [] {
      NoLines(es[..|es| - 1], n);
      OpenBlockIsKnown(es[..|es| - 1]);
      OneMore(es[..|es| - 1], es[|es| - 1]);
      assert es == es[..|es| - 1] + [es[|es| - 1]];
    }
  }

  /** Whether a base is named follows from its pkgname list. */
  lemma {:induction false} BaseNamed(es: seq<KeyValue>)
    ensures BaseNames(es) == [] <==> Names(es) == []
  {
    if es != [] {
      BaseNamed(es[..|es| - 1]);
    }
  }

  /** What a line does to the record it belongs to. */
  function SetField(info: PkgInfo, field: Field, values: seq<string>): PkgInfo {
    match field
    case OneValue(f) => info.WithScalar(f, First(values))
    case Many(f) => info.WithList(f, info.List(f) + values)
    case NoField => info
  }

  /** A line for a field changes the record of the open block and no other. */
  lemma FieldLine(info: PkgInfo, es: seq<KeyValue>, o: Option<string>, e: KeyValue, field: Field)
    requires Own(info, es, o) && FieldOf(e.key) == field
    ensures Own(if Block(es) == o then SetField(info, field, e.values) else info, es + [e], o)
  {
    OneMore(es, e);
    match field
    case OneValue(f) =>
    case Many(f) =>
    case NoField =>
  }

  lemma AfterField(es: seq<KeyValue>, base: PkgInfo, packages: map<string, PkgInfo>, current: Option<string>, e: KeyValue, field: Field)
    requires Reads(es, base, packages, current)
    requires e.key != "pkgname" && FieldOf(e.key) == field
    ensures current.Some? ==> current.value in packages
    ensures current.None? ==> Reads(es + [e], SetField(base, field, e.values), packages, current)
    ensures current.Some? ==>
              Reads(es + [e], base, packages[current.value := SetField(packages[current.value], field, e.values)], current)
  {
    FieldKeepsBlocks(es, e);
    OpenBlockIsKnown(es);
    BaseAfterField(base, es, e, field);
    forall n | n in packages
      ensures Own(if Block(es) == Some(n) then SetField(packages[n], field, e.values) else packages[n], es + [e], Some(n))
    {
      FieldLine(packages[n], es, Some(n), e, field);
    }
  }

  lemma FieldKeepsBlocks(es: seq<KeyValue>, e: KeyValue)
    requires e.key != "pkgname"
    ensures Block(es + [e]) == Block(es) && Blocks(es + [e]) == Blocks(es)
  {
    OneMore(es, e);
  }

  lemma BaseAfterField(base: PkgInfo, es: seq<KeyValue>, e: KeyValue, field: Field)
    requires IsBase(base, es) && e.key != "pkgname" && FieldOf(e.key) == field
    ensures IsBase(if Block(es).None? then SetField(base, field, e.values) else base, es + [e])
  {
    OneMore(es, e);
    FieldLine(base, es, None, e, field);
  }

  /** A pkgname line changes no field, so every record still holds what its block says. */
  lemma AfterName(es: seq<KeyValue>, base: PkgInfo, packages: map<string, PkgInfo>, current: Option<string>, e: KeyValue)
    requires Reads(es, base, packages, current)
    requires FieldOf(e.key) == NoField
    ensures Own(base, es + [e], None)
    ensures forall n | n in packages :: Own(packages[n], es + [e], Some(n))
    ensures forall n | n !in packages :: Own(DEFAULT_INFO, es + [e], Some(n))
  {
    FieldLine(base, es, None, e, NoField);
    forall n
      ensures n in packages ==> Own(packages[n], es + [e], Some(n))
      ensures n !in packages ==> Own(DEFAULT_INFO, es + [e], Some(n))
    {
      if n in packages {
        FieldLine(packages[n], es, Some(n), e, NoField);
      } else {
        NoLines(es, n);
        FieldLine(DEFAULT_INFO, es, Some(n), e, NoField);
      }
    }
  }

  /** A pkgname line: names the base, or opens a block. */
  method ApplyName(base: PkgInfo, packages: map<string, PkgInfo>, current: Option<string>, name: string, values: seq<string>,
                   ghost es: seq<KeyValue>, ghost e: KeyValue)
    returns (base': PkgInfo, packages': map<string, PkgInfo>, current': Option<string>)
    requires Reads(es, base, packages, current)
    requires values != [] && name == values[0]
    requires NamesPackage(e) && e.values == values && FieldOf(e.key) == NoField
    ensures Reads(es + [e], base', packages', current')
  {
    base', packages', current' := base, packages, current;
    OneMore(es, e);
    BaseNamed(es);
    AfterName(es, base, packages, current, e);
    if base.pkgname != [] && current != Some(name) {
      current' := Some(name);
      if name !in packages {
        packages' := packages[name := DEFAULT_INFO];
      }
    } else {
      OpenBlockIsKnown(es);
      base' := Renamed(base, values, es + [e]);
    }
  }

  method Renamed(base: PkgInfo, names: seq<string>, ghost es: seq<KeyValue>) returns (r: PkgInfo)
    requires Own(base, es, None)
    ensures Own(r, es, None) && r.pkgname == names
  {
    RenameKeepsFields(base, names);
    r := base.(pkgname := names);
  }

  /** Any other line: goes to the record of the open block. */
  method ApplyField(base: PkgInfo, packages: map<string, PkgInfo>, current: Option<string>, field: Field, values: seq<string>,
                    ghost es: seq<KeyValue>, ghost e: KeyValue)
    returns (base': PkgInfo, packages': map<string, PkgInfo>)
    requires Reads(es, base, packages, current)
    requires e.key != "pkgname" && FieldOf(e.key) == field && e.values == values
    ensures Reads(es + [e], base', packages', current)
  {
    base', packages' := base, packages;
    AfterField(es, base, packages, current, e, field);
    match current {
      case Some(name) => packages' := packages[name := SetField(packages[name], field, values)];
      case None => base' := SetField(base, field, values);
    }
  }

  method ApplyKey(base: PkgInfo, packages: map<string, PkgInfo>, current: Option<string>, e: KeyValue, ghost es: seq<KeyValue>)
    returns (base': PkgInfo, packages': map<string, PkgInfo>, current': Option<string>)
    requires Reads(es, base, packages, current)
    ensures Reads(es + [e], base', packages', current')
  {
    var key, values := e.key, e.values;
    if key != "pkgname" {
      base', packages' := ApplyField(base, packages, current, FieldOf(key), values, es, e);
      current' := current;
    } else if values != [] {
      base', packages', current' := ApplyName(base, packages, current, values[0], values, es, e);
    } else {
      base', packages', current' := base, packages, current;
      NamelessLine(es, base, packages, current, e);
    }
  }

  lemma NamelessLine(es: seq<KeyValue>, base: PkgInfo, packages: map<string, PkgInfo>, current: Option<string>, e: KeyValue)
    requires Reads(es, base, packages, current)
    requires !NamesPackage(e) && FieldOf(e.key) == NoField
    ensures Reads(es + [e], base, packages, current)
  {
    OneMore(es, e);
    AfterName(es, base, packages, current, e);
  }

  /** The error names the first malformed line by its 1-based number and its raw text. */
  predicate FirstMalformed(ts: seq<Token>, lines: seq<string>, e: ParseError)
    requires |ts| == |lines|
  {
    && 1 <= e.line <= |ts|
    && ts[e.line - 1].Malformed?
    && e.content == lines[e.line - 1]
    && forall i | 0 <= i < e.line - 1 :: !ts[i].Malformed?
  }

  lemma MergedIsPackage(es: seq<KeyValue>, base: PkgInfo, info: PkgInfo, n: string)
    requires Own(info, es, Some(n)) && info.pkgname == []
    ensures IsPackage(Merge(base, info), base, es, n)
  {
    MergeByField(base, info);
  }

  /** Every package's record layered over that of the base. */
  function Propagated(base: PkgInfo, packages: map<string, PkgInfo>): map<string, PkgInfo> {
    map n | n in packages :: Merge(base, packages[n])
  }

  /** Rewrites every value of a map. */
  method UpdateValues<V>(m: map<string, V>, f: V -> V) returns (r: map<string, V>)
    ensures r == map n | n in m :: f(m[n])
  {
    r := m;
    var todo := m.Keys;
    while todo != {}
      invariant todo <= m.Keys == r.Keys
      invariant forall n | n in m :: r[n] == if n in todo then m[n] else f(m[n])
      decreases |todo|
    {
      var n :| n in todo;
      r := r[n := f(r[n])];
      todo := todo - {n};
    }
  }

  /** The entries among the first `n` tokens. */
  function EntriesUpTo(ts: seq<Token>, n: nat): seq<KeyValue>
    requires n <= |ts|
  {
    if n == 0 then []
    else if ts[n - 1].Entry? then EntriesUpTo(ts, n - 1) + [ts[n - 1]]
    else EntriesUpTo(ts, n - 1)
  }

  lemma {:induction false} EntriesUpToIs(ts: seq<Token>, n: nat)
    requires n <= |ts|
    ensures EntriesUpTo(ts, n) == Entries(ts[..n])
  {
    if n > 0 {
      EntriesUpToIs(ts, n - 1);
      assert ts[..n][..n - 1] == ts[..n - 1];
    }
  }

  method ReadToken(base: PkgInfo, packages: map<string, PkgInfo>, block: Option<string>, t: Token, ghost es: seq<KeyValue>)
    returns (base': PkgInfo, packages': map<string, PkgInfo>, block': Option<string>)
    requires Reads(es, base, packages, block) && !t.Malformed?
    ensures Reads(if t.Entry? then es + [t] else es, base', packages', block')
  {
    if t.Entry? {
      base', packages', block' := ApplyKey(base, packages, block, t, es);
    } else {
      base', packages', block' := base, packages, block;
    }
  }

  /** The loop over the lines, each already cut into key and values. */
  method ParseTokens(ts: seq<Token>, lines: seq<string>)
    returns (r: Result<(PkgInfo, map<string, PkgInfo>), ParseError>, ghost current: Option<string>)
    requires |ts| == |lines|
    ensures r.Ok? <==> NoMalformed(ts)
    ensures r.Ok? ==> Reads(Entries(ts), r.value.0, r.value.1, current)
    ensures r.Err? ==> FirstMalformed(ts, lines, r.error)
  {
    var base, packages, block: Option<string> := DEFAULT_INFO, map[], None;
    for lineno := 0 to |ts|
      invariant forall i | 0 <= i < lineno :: !ts[i].Malformed?
      invariant Reads(EntriesUpTo(ts, lineno), base, packages, block)
    {
      if ts[lineno].Malformed? {
        return Err(ParseError(lineno + 1, lines[lineno])), None;
      }
      base, packages, block := ReadToken(base, packages, block, ts[lineno], EntriesUpTo(ts, lineno));
    }
    EntriesUpToIs(ts, |ts|);
    assert ts[..|ts|] == ts;
    return Ok((base, packages)), block;
  }

  /**
   Parses a file. It fails exactly when some line is malformed and then reports the first one;
   otherwise the result is what the blocks of the file mean.
   */
  method Parse(input: string) returns (r: Result<SrcInfo, ParseError>)
    ensures r.Ok? <==> Readable(input)
    ensures r.Ok? ==> Means(r.value, EntriesOf(input))
    ensures r.Err? ==> FirstMalformed(Tokens(Lines(input)), Lines(input), r.error)
  {
    var lines := Lines(input);
    var read, current := ParseTokens(Tokens(lines), lines);
    if read.Err? {
      return Err(read.error);
    }
    var (base, packages) := read.value;
    var merged := UpdateValues(packages, info => Merge(base, info));
    assert merged == Propagated(base, packages);
    MergedMeans(EntriesOf(input), base, packages, current);
    return Ok(SrcInfo(base, merged));
  }

  lemma MergedMeans(es: seq<KeyValue>, base: PkgInfo, packages: map<string, PkgInfo>, current: Option<string>)
    requires Reads(es, base, packages, current)
    ensures Means(SrcInfo(base, Propagated(base, packages)), es)
  {
    forall n | n in packages
      ensures IsPackage(Merge(base, packages[n]), base, es, n)
    {
      MergedIsPackage(es, base, packages[n], n);
    }
  }

  // -------- what follows for results --------

  /** Entries determine the result. */
  lemma MeaningIsUnique(a: SrcInfo, b: SrcInfo, es: seq<KeyValue>)
    requires Means(a, es) && Means(b, es)
    ensures a == b
  {
    FieldsDecide(a.base, b.base);
    forall n | n in a.packages
      ensures a.packages[n] == b.packages[n]
    {
      FieldsDecide(a.packages[n], b.packages[n]);
    }
    assert a.packages == b.packages;
  }

  /** Layering the base a second time changes nothing. */
  lemma PropagatedAlready(info: SrcInfo, es: seq<KeyValue>)
    requires Means(info, es)
    ensures Propagated(info.base, info.packages) == info.packages
  {
    forall n | n in info.packages
      ensures Merge(info.base, info.packages[n]) == info.packages[n]
    {
      MergeByField(info.base, info.packages[n]);
      assert IsPackage(info.packages[n], info.base, es, n);
      FieldsDecide(Merge(info.base, info.packages[n]), info.packages[n]);
    }
  }

  function Version(ver: Option<string>, rel: Option<string>, epoch: Option<string>): Option<string> {
    if ver.None? || rel.None? then None
    else Some((if epoch.Some? && epoch.value != "" then epoch.value + ":" else "") + ver.value + "-" + rel.value)
  }

  function FullVersion(info: PkgInfo): Option<string> {
    Version(info.pkgver, info.pkgrel, info.epoch)
  }

  function FullVersionOf(info: SrcInfo, pkg: string): Option<string> {
    FullVersion(if pkg in info.packages then info.packages[pkg] else info.base)
  }

  /** What a name has for a field: the value of the last line in its own blocks, else that in the base's. */
  function Resolved(es: seq<KeyValue>, pkg: string, f: ScalarField): Option<string> {
    if OwnScalar(es, Some(pkg), f).Some? then OwnScalar(es, Some(pkg), f) else OwnScalar(es, None, f)
  }

  /**
   The version of any name, with or without a block of its own: version and release as the blocks
   give them, with a non-empty epoch in front, and none if either is missing.
   */
  lemma VersionByBlocks(info: SrcInfo, es: seq<KeyValue>, pkg: string)
    requires Means(info, es)
    ensures var ver, rel, epoch := Resolved(es, pkg, PkgVer), Resolved(es, pkg, PkgRel), Resolved(es, pkg, Epoch);
            && (FullVersionOf(info, pkg).None? <==> ver.None? || rel.None?)
            && (ver.Some? && rel.Some? ==>
                  FullVersionOf(info, pkg) ==
                    if epoch.Some? && epoch.value != "" then Some(epoch.value + ":" + ver.value + "-" + rel.value)
                    else Some(ver.value + "-" + rel.value))
  {
    var r := if pkg in info.packages then info.packages[pkg] else info.base;
    if pkg !in info.packages {
      NoLines(es, pkg);
      assert forall f: ScalarField :: DEFAULT_INFO.Scalar(f) == OwnScalar(es, Some(pkg), f);
      assert DEFAULT_INFO.Scalar(PkgVer).None? && DEFAULT_INFO.Scalar(PkgRel).None? && DEFAULT_INFO.Scalar(Epoch).None?;
    }
    assert r.pkgver == r.Scalar(PkgVer) && r.pkgrel == r.Scalar(PkgRel) && r.epoch == r.Scalar(Epoch);
    assert info.base.Scalar(PkgVer) == OwnScalar(es, None, PkgVer);
    assert info.base.Scalar(PkgRel) == OwnScalar(es, None, PkgRel);
    assert info.base.Scalar(Epoch) == OwnScalar(es, None, Epoch);
    if r.pkgver.Some? {
      assert "" + r.pkgver.value == r.pkgver.value;
    }
  }

  // -------- blank lines and comments --------

  lemma {:induction false} EntriesConcat(a: seq<Token>, b: seq<Token>)
    ensures Entries(a + b) == Entries(a) + Entries(b)
  {
    if b == [] {
      assert a + b == a;
    } else {
      assert (a + b)[..|a + b| - 1] == a + b[..|b| - 1];
      EntriesConcat(a, b[..|b| - 1]);
    }
  }

  lemma NoMalformedConcat(a: seq<Token>, b: seq<Token>)
    ensures NoMalformed(a + b) <==> NoMalformed(a) && NoMalformed(b)
  {
    assert forall i | 0 <= i < |a| :: (a + b)[i] == a[i];
    assert forall i | 0 <= i < |b| :: (a + b)[|a| + i] == b[i];
  }

  /** One token in the middle. */
  lemma InsertToken(a: seq<Token>, t: Token, b: seq<Token>)
    ensures NoMalformed(a + ([t] + b)) <==> NoMalformed(a + b) && !t.Malformed?
    ensures Entries(a + ([t] + b)) == Entries(a) + ((if t.Entry? then [t] else []) + Entries(b))
    ensures t.Blank? ==> Entries(a + ([t] + b)) == Entries(a + b)
  {
    EntriesConcat(a, [t] + b);
    EntriesConcat([t], b);
    EntriesConcat(a, b);
    NoMalformedConcat(a, [t] + b);
    NoMalformedConcat([t], b);
    NoMalformedConcat(a, b);
    assert Entries([t]) == if t.Entry? then [t] else [];
  }

  lemma TokensConcat(a: seq<string>, b: seq<string>)
    ensures Tokens(a + b) == Tokens(a) + Tokens(b)
  {
  }

  lemma BlankIff(raw: string)
    ensures Content(raw) == "" <==> AllOf(CutComment(raw), IsSpace)
  {
    var cut := CutComment(raw);
    var a, b := TrimSplits(cut, IsSpace);
    if AllOf(cut, IsSpace) {
      TrimIs(cut, "", "", IsSpace);
      assert cut + "" + "" == cut;
    }
  }

  /** Cutting the comment of a prefix gives a prefix. */
  lemma CutOfPrefix(c: string, n: nat)
    requires n <= |c|
    ensures |CutComment(c[..n])| <= |CutComment(c)|
    ensures forall i | 0 <= i < |CutComment(c[..n])| :: CutComment(c[..n])[i] == CutComment(c)[i]
  {
    IndexOfSpec(c, '#');
    IndexOfSpec(c[..n], '#');
    if IndexOf(c[..n], '#').Some? {
      FirstIs(c, '#', IndexOf(c[..n], '#').value);
    }
  }

  lemma BlankWithoutCr(c: string)
    requires Content(c) == ""
    ensures Tokenise(WithoutCr(c)).Blank?
  {
    BlankIff(c);
    BlankIff(WithoutCr(c));
    CutOfPrefix(c, |WithoutCr(c)|);
    assert c[..|WithoutCr(c)|] == WithoutCr(c);
  }

  /**
   Inserting a line that is blank or only a comment, anywhere between two lines, changes neither
   whether the file parses nor what it means.
   */
  lemma BlankLinesDoNotMatter(a: string, c: string, b: string)
    requires Complete(a) && Lacks(c, '\n') && Content(c) == ""
    ensures Readable(a + (c + "\n" + b)) <==> Readable(a + b)
    ensures EntriesOf(a + (c + "\n" + b)) == EntriesOf(a + b)
  {
    LineInTheMiddle(a, c, b);
    BlankWithoutCr(c);
    InsertToken(Tokens(Lines(a)), Tokenise(WithoutCr(c)), Tokens(Lines(b)));
  }

  lemma LineInTheMiddle(a: string, c: string, b: string)
    requires Complete(a) && Lacks(c, '\n')
    ensures Tokens(Lines(a + b)) == Tokens(Lines(a)) + Tokens(Lines(b))
    ensures Tokens(Lines(a + (c + "\n" + b))) == Tokens(Lines(a)) + ([Tokenise(WithoutCr(c))] + Tokens(Lines(b)))
  {
    LinesOfConcat(a, b);
    TokensConcat(Lines(a), Lines(b));
    LinesOfConcat(a, c + "\n" + b);
    LinesStep(c, b);
    TokensConcat(Lines(a), [WithoutCr(c)] + Lines(b));
    TokensConcat([WithoutCr(c)], Lines(b));
    assert Tokens([WithoutCr(c)]) == [Tokenise(WithoutCr(c))];
  }

  // -------- canonical lines --------

  /** A key and a value as makepkg prints them. */
  predicate Plain(k: string, v: string) {
    && IsTrimmedBy(k, IsSpace) && Lacks(k, '=') && Lacks(k, '#') && Lacks(k, '\n')
    && IsTrimmedBy(v, IsSpace) && IsTrimmedBy(v, IsQuote) && Lacks(v, '#') && Lacks(v, '\n')
  }

  /** The line of such a value is taken for an array. */
  predicate ArrayShaped(v: string) {
    && v != "" && v[|v| - 1] == ')'
    && (v[0] == '(' || Find(v[..|v| - 1], "= (").Some?)
  }

  function CanonicalLine(k: string, v: string): string {
    k + " = " + v
  }

  function Left(k: string): string {
    if k == "" then "" else k + " "
  }

  function Right(v: string): string {
    if v == "" then "" else " " + v
  }

  lemma CanonicalParts(k: string, v: string)
    ensures CanonicalLine(k, v) == (if k == "" then " " else "") + (Left(k) + "=" + Right(v)) + (if v == "" then " " else "")
  {
  }

  lemma ContentIs(line: string, a: string, t: string, b: string)
    requires line == a + t + b && Lacks(line, '#')
    requires AllOf(a, IsSpace) && AllOf(b, IsSpace) && IsTrimmedBy(t, IsSpace)
    ensures Content(line) == t
  {
    IndexOfSpec(line, '#');
    TrimIs(a, t, b, IsSpace);
  }

  lemma CanonicalChars(k: string, v: string)
    requires Plain(k, v)
    ensures Lacks(CanonicalLine(k, v), '#') && Lacks(CanonicalLine(k, v), '\n')
    ensures IsTrimmedBy(Left(k) + "=" + Right(v), IsSpace)
    ensures WithoutCr(CanonicalLine(k, v)) == CanonicalLine(k, v)
  {
    var line, t := CanonicalLine(k, v), Left(k) + "=" + Right(v);
    assert line[|line| - 1] == if v == "" then ' ' else v[|v| - 1];
    assert t[0] == if k == "" then '=' else k[0];
    assert t[|t| - 1] == if v == "" then '=' else v[|v| - 1];
  }

  lemma CanonicalContent(k: string, v: string)
    requires Plain(k, v)
    ensures Content(CanonicalLine(k, v)) == Left(k) + "=" + Right(v)
  {
    CanonicalChars(k, v);
    CanonicalParts(k, v);
    var a, b := if k == "" then " " else "", if v == "" then " " else "";
    ContentIs(CanonicalLine(k, v), a, Left(k) + "=" + Right(v), b);
  }

  /** "= (" at place `i`, character by character. */
  lemma AtOpening(s: string, i: nat)
    ensures OccursAt(s, "= (", i) <==> i + 2 < |s| && s[i] == '=' && s[i + 1] == ' ' && s[i + 2] == '('
  {
    if i + 2 < |s| {
      assert s[i..i + 3] == [s[i], s[i + 1], s[i + 2]];
    }
  }

  lemma OpeningAt(l: string, inner: string, i: nat)
    requires Lacks(l, '=')
    ensures OccursAt(l + "= " + inner, "= (", i) <==>
              (i == |l| && inner != "" && inner[0] == '(') || (i >= |l| + 2 && OccursAt(inner, "= (", i - |l| - 2))
  {
    AtOpening(l + "= " + inner, i);
    if i >= |l| + 2 {
      AtOpening(inner, i - |l| - 2);
    }
  }

  lemma CanonicalArray(l: string, inner: string)
    requires Lacks(l, '=')
    ensures var r := Find(l + "= " + inner, "= (");
            && (r.Some? <==> (inner != "" && inner[0] == '(') || Find(inner, "= (").Some?)
            && (r.Some? ==> r.value >= |l|)
  {
    FindFromSpec(l + "= " + inner, "= (", 0);
    FindFromSpec(inner, "= (", 0);
    if Find(l + "= " + inner, "= (").Some? {
      OpeningAt(l, inner, Find(l + "= " + inner, "= (").value);
    }
    if Find(inner, "= (").Some? {
      OpeningAt(l, inner, |l| + 2 + Find(inner, "= (").value);
    }
    OpeningAt(l, inner, |l|);
  }

  lemma ArrayWordsAreShort(raw: string, t: string)
    requires Content(raw) == t && ArrayAt(t).Some?
    ensures Tokenise(raw).Entry? && forall w | w in Tokenise(raw).values :: |w| + ArrayAt(t).value + 4 <= |t|
  {
    WordsAreShort(TrimStartBy(t[ArrayAt(t).value + 3..|t| - 1], IsSpace));
  }

  /** An array-shaped value comes back as words that are shorter than it. */
  lemma ArrayLine(k: string, v: string)
    requires Plain(k, v) && ArrayShaped(v)
    ensures Tokenise(CanonicalLine(k, v)) != Entry(k, [v])
  {
    CanonicalContent(k, v);
    CanonicalEnd(k, v);
    CanonicalArray(Left(k), v[..|v| - 1]);
    ArrayWordsAreShort(CanonicalLine(k, v), Left(k) + "=" + Right(v));
    assert v in [v];
  }

  /** A line that is not an array splits at its first '='. */
  lemma SplitsAtFirst(raw: string, l: string, r: string)
    requires Content(raw) == l + "=" + r && Lacks(l, '=') && ArrayAt(l + "=" + r).None?
    ensures Tokenise(raw) == Entry(Trim(l), [TrimBy(Trim(r), IsQuote)])
  {
    FirstInConcat(l, '=', r);
  }

  lemma CanonicalEnd(k: string, v: string)
    ensures var t := Left(k) + "=" + Right(v);
            && t[|t| - 1] == (if v == "" then '=' else v[|v| - 1])
            && (v != "" ==> t[..|t| - 1] == Left(k) + "= " + v[..|v| - 1])
  {
  }

  lemma NoArray(k: string, v: string)
    requires Plain(k, v) && !ArrayShaped(v)
    ensures ArrayAt(Left(k) + "=" + Right(v)).None?
  {
    CanonicalEnd(k, v);
    if v != "" && v[|v| - 1] == ')' {
      CanonicalArray(Left(k), v[..|v| - 1]);
    }
  }

  lemma ScalarLine(k: string, v: string)
    requires Plain(k, v) && !ArrayShaped(v)
    ensures Tokenise(CanonicalLine(k, v)) == Entry(k, [v])
  {
    CanonicalContent(k, v);
    NoArray(k, v);
    SplitsAtFirst(CanonicalLine(k, v), Left(k), Right(v));
    TrimsToKey(k);
    TrimsToValue(v);
  }

  lemma TrimsToKey(k: string)
    requires IsTrimmedBy(k, IsSpace)
    ensures Trim(Left(k)) == k
  {
    var b := if k == "" then "" else " ";
    assert "" + k + b == Left(k);
    TrimIs("", k, b, IsSpace);
  }

  lemma TrimsToValue(v: string)
    requires IsTrimmedBy(v, IsSpace) && IsTrimmedBy(v, IsQuote)
    ensures TrimBy(Trim(Right(v)), IsQuote) == v
  {
    var a := if v == "" then "" else " ";
    assert a + v + "" == Right(v) && "" + v + "" == v;
    TrimIs(a, v, "", IsSpace);
    TrimIs("", v, "", IsQuote);
  }

  /**
   A canonical line tokenises back to exactly its key and value, unless its value is
   array-shaped; then it never does.
   */
  lemma CanonicalLineTokenises(k: string, v: string)
    requires Plain(k, v)
    ensures Tokenise(CanonicalLine(k, v)) == Entry(k, [v]) <==> !ArrayShaped(v)
  {
    if ArrayShaped(v) {
      ArrayLine(k, v);
    } else {
      ScalarLine(k, v);
    }
  }

  // -------- a whole file --------

  function Render(kvs: seq<(string, string)>): string {
    if kvs == [] then ""
    else CanonicalLine(kvs[0].0, kvs[0].1) + "\n" + Render(kvs[1..])
  }

  function AsEntries(kvs: seq<(string, string)>): seq<KeyValue> {
    if kvs == [] then [] else [Entry(kvs[0].0, [kvs[0].1])] + AsEntries(kvs[1..])
  }

  /** A file of canonical lines parses, and its entries are exactly the keys and values written. */
  lemma {:induction false} CanonicalFile(kvs: seq<(string, string)>)
    requires forall i | 0 <= i < |kvs| :: Plain(kvs[i].0, kvs[i].1) && !ArrayShaped(kvs[i].1)
    ensures Readable(Render(kvs)) && EntriesOf(Render(kvs)) == AsEntries(kvs)
  {
    if kvs != [] {
      CanonicalFile(kvs[1..]);
      FirstCanonicalLine(kvs[0].0, kvs[0].1, Render(kvs[1..]));
    }
  }

  lemma FirstCanonicalLine(k: string, v: string, rest: string)
    requires Plain(k, v) && !ArrayShaped(v)
    ensures var s := CanonicalLine(k, v) + "\n" + rest;
            && EntriesOf(s) == [Entry(k, [v])] + EntriesOf(rest)
            && (Readable(s) <==> Readable(rest))
  {
    CanonicalChars(k, v);
    ScalarLine(k, v);
    FrontLine(CanonicalLine(k, v), rest);
    FrontEntry(Entry(k, [v]), Tokens(Lines(rest)));
  }

  lemma FrontLine(line: string, rest: string)
    requires Lacks(line, '\n')
    ensures Tokens(Lines(line + "\n" + rest)) == [Tokenise(WithoutCr(line))] + Tokens(Lines(rest))
  {
    LineInTheMiddle("", line, rest);
    assert "" + (line + "\n" + rest) == line + "\n" + rest;
  }

  lemma FrontEntry(e: KeyValue, ts: seq<Token>)
    ensures Entries([e] + ts) == [e] + Entries(ts)
    ensures NoMalformed([e] + ts) <==> NoMalformed(ts)
  {
    EntriesConcat([e], ts);
    NoMalformedConcat([e], ts);
  }
}
