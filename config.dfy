/** The configuration manager of pkg/config: the walk that turns a tagged
    configuration struct into command-line flags, and the small guards
    around it (the root-struct check, the config-file read, the decode call
    and the environment key replacer). Go reflection is replaced by an
    explicit schema: a field carries its `name`, `short` and `description`
    tags and its kind, and a struct kind carries its own field list. */
module Config {
  import opened Wrappers

  /** The reflect.Kind of a field's type. `Unsupported` stands for every kind
      the walk has no case for (channels, functions, pointers, int32, ...). */
  datatype Kind =
    | String | Bool | Uint | Uint64 | Int | Int64 | Float64 | Slice | Map
    | Struct(fields: seq<FieldDecl>)
    | Unsupported(kindName: string)

  /** One struct field; a tag that is absent reads as the empty string. */
  datatype FieldDecl = FieldDecl(nameTag: string, shortTag: string, description: string, kind: Kind)

  /** The pflag value type a flag was registered with. */
  datatype FlagType =
    | StringFlag | BoolFlag | UintFlag | Uint64Flag | IntFlag | Int64Flag | Float64Flag | StringSliceFlag

  /** A flag's default value; floats are only ever zero here, so no arithmetic is needed. */
  datatype Default = StringDefault(s: string) | BoolDefault(b: bool) | IntDefault(n: int) | FloatZero | NilSlice

  /** A registered flag: long name, shorthand, type, default and usage text. */
  datatype Flag = Flag(name: string, shorthand: string, flagType: FlagType, default: Default, usage: string)

  /** What a walk registered, in order, and the kind it panicked on, if it did.
      Flags registered before a panic stay registered. */
  datatype Walk = Walk(flags: seq<Flag>, panicked: Option<Kind>)

  /** Why InitFlags panics. */
  datatype Panic = NotAStruct | UnknownType(kind: Kind)

  /** A field the walk passes over: an empty or `-` name tag on a non-struct field. */
  predicate Skipped(f: FieldDecl) {
    (f.nameTag == "" || f.nameTag == "-") && !f.kind.Struct?
  }

  /** The dotted name of a field under `prefix`; the tag alone at top level. */
  function FlagName(prefix: string, tag: string): string {
    if prefix != "" then prefix + "." + tag else tag
  }

  /** The flag a leaf field registers under `name`: the kind's flag type and
      that type's zero value; struct and unknown kinds register none. */
  function LeafFlag(name: string, f: FieldDecl): Option<Flag> {
    match LeafType(f.kind)
    case Some(t) => Some(FlagOf(name, f, t, ZeroOf(t)))
    case None => None
  }

  /** A flag for field `f` under `name`, with its `short` and `description` tags. */
  function FlagOf(name: string, f: FieldDecl, t: FlagType, d: Default): Flag {
    Flag(name, f.shortTag, t, d, f.description)
  }

  /** The flags one field registers: none when skipped, the walk of its
      children for a struct, a panic for an unknown kind, else its one flag. */
  function WalkField(prefix: string, f: FieldDecl): Walk
    decreases f
  {
    if Skipped(f) then Walk([], None)
    else
      var name := FlagName(prefix, f.nameTag);
      match f.kind
      case Struct(children) => WalkFields(name, children)
      case Unsupported(_) => Walk([], Some(f.kind))
      case _ => Walk([LeafFlag(name, f).value], None)
  }

  /** The flags a field list registers, in declaration order, stopping at the
      first panic. Defined on the last field so that it follows a forward loop. */
  function WalkFields(prefix: string, fs: seq<FieldDecl>): Walk
    decreases fs
  {
    if fs == [] then Walk([], None)
    else
      var before := WalkFields(prefix, fs[..|fs| - 1]);
      if before.panicked.Some? then before
      else
        var last := WalkField(prefix, fs[|fs| - 1]);
        Walk(before.flags + last.flags, last.panicked)
  }

  // ---------------------------------------------------------------------
  // The leaf table, and the fields the walk can reach

  /** The flag type each supported leaf kind maps to; slices and maps both
      become repeatable string-slice flags. */
  function LeafType(k: Kind): Option<FlagType> {
    match k
    case String => Some(StringFlag)
    case Bool => Some(BoolFlag)
    case Uint => Some(UintFlag)
    case Uint64 => Some(Uint64Flag)
    case Int => Some(IntFlag)
    case Int64 => Some(Int64Flag)
    case Float64 => Some(Float64Flag)
    case Slice => Some(StringSliceFlag)
    case Map => Some(StringSliceFlag)
    case _ => None
  }

  /** The zero value of a flag type: "", false, 0, or a nil slice. */
  function ZeroOf(t: FlagType): Default {
    match t
    case StringFlag => StringDefault("")
    case BoolFlag => BoolDefault(false)
    case Float64Flag => FloatZero
    case StringSliceFlag => NilSlice
    case _ => IntDefault(0)
  }

  /** Every field the walk reaches has a kind it knows. */
  predicate FieldSupported(f: FieldDecl)
    decreases f
  {
    Skipped(f) || (match f.kind
                   case Struct(children) => AllSupported(children)
                   case Unsupported(_) => false
                   case _ => true)
  }

  predicate AllSupported(fs: seq<FieldDecl>)
    decreases fs
  {
    forall i :: 0 <= i < |fs| ==> FieldSupported(fs[i])
  }

  // ---------------------------------------------------------------------
  // Properties of the walk

  /** A supported leaf field with a usable name tag registers exactly one flag:
      its dotted name, the `short` tag as shorthand, the `description` tag as
      usage, the kind's flag type and that type's zero value. */
  lemma LeafRegistersOneFlag(prefix: string, f: FieldDecl)
    requires !Skipped(f) && LeafType(f.kind).Some?
    ensures var t := LeafType(f.kind).value;
            WalkField(prefix, f) ==
              Walk([Flag(if prefix == "" then f.nameTag else prefix + "." + f.nameTag,
                         f.shortTag, t, ZeroOf(t), f.description)], None)
  {
  }

  /** A struct field is always recursed into, whatever its tag: its children
      are walked under the field's dotted name. With an empty tag this leaves
      the children unprefixed at top level and gives them the prefix `p.`
      (with a trailing dot) under `p`. */
  lemma StructIsAlwaysRecursed(prefix: string, f: FieldDecl)
    requires f.kind.Struct?
    ensures WalkField(prefix, f) == WalkFields(FlagName(prefix, f.nameTag), f.kind.fields)
    ensures f.nameTag == "" && prefix == "" ==> WalkField(prefix, f) == WalkFields("", f.kind.fields)
    ensures f.nameTag == "" && prefix != "" ==> WalkField(prefix, f) == WalkFields(prefix + ".", f.kind.fields)
  {
    if f.nameTag == "" && prefix != "" {
      assert prefix + "." + "" == prefix + ".";
    }
  }

  /** Walking two field lists one after the other registers the first list's
      flags followed by the second's: registration is depth-first in
      declaration order, and a panic in the first list stops everything. */
  lemma {:induction false} WalkFieldsAppend(prefix: string, a: seq<FieldDecl>, b: seq<FieldDecl>)
    ensures var wa := WalkFields(prefix, a);
            var wb := WalkFields(prefix, b);
            WalkFields(prefix, a + b) ==
              if wa.panicked.Some? then wa else Walk(wa.flags + wb.flags, wb.panicked)
    decreases |b|
  {
    if b == [] {
      assert a + b == a;
    } else {
      var b' := b[..|b| - 1];
      assert (a + b)[..|a + b| - 1] == a + b';
      assert (a + b)[|a + b| - 1] == b[|b| - 1];
      WalkFieldsAppend(prefix, a, b');
    }
  }

  /** One more field of a list that has not panicked so far. */
  lemma WalkFieldsStep(prefix: string, fs: seq<FieldDecl>, i: nat)
    requires i < |fs| && WalkFields(prefix, fs[..i]).panicked.None?
    ensures WalkFields(prefix, fs[..i + 1]) ==
              Walk(WalkFields(prefix, fs[..i]).flags + WalkField(prefix, fs[i]).flags,
                   WalkField(prefix, fs[i]).panicked)
  {
    assert fs[..i + 1][..i] == fs[..i];
  }

  /** Once the walk of a leading part of a field list panics, the fields after
      it are never looked at. */
  lemma PanicStopsWalk(prefix: string, fs: seq<FieldDecl>, n: nat)
    requires n <= |fs| && WalkFields(prefix, fs[..n]).panicked.Some?
    ensures WalkFields(prefix, fs) == WalkFields(prefix, fs[..n])
  {
    WalkFieldsAppend(prefix, fs[..n], fs[n..]);
    assert fs[..n] + fs[n..] == fs;
  }

  /** A skipped field can be removed from anywhere in a field list without
      changing what the walk registers. */
  lemma SkippedFieldRegistersNothing(prefix: string, a: seq<FieldDecl>, f: FieldDecl, b: seq<FieldDecl>)
    requires Skipped(f)
    ensures WalkFields(prefix, a + [f] + b) == WalkFields(prefix, a + b)
  {
    assert WalkFields(prefix, [f]) == Walk([], None) by {
      assert [f][..0] == [];
    }
    WalkFieldsAppend(prefix, a, [f]);
    WalkFieldsAppend(prefix, a + [f], b);
    WalkFieldsAppend(prefix, a, b);
    assert WalkFields(prefix, a + [f]) == WalkFields(prefix, a) by {
      var wa := WalkFields(prefix, a);
      if wa.panicked.None? {
        assert wa.flags + [] == wa.flags;
      }
    }
  }

  /** The walk panics exactly when it reaches a field of a kind it does not
      know, and the kind it reports is that unsupported kind. */
  lemma {:induction false} WalkFieldPanicsIffUnsupported(prefix: string, f: FieldDecl)
    ensures WalkField(prefix, f).panicked.None? <==> FieldSupported(f)
    ensures WalkField(prefix, f).panicked.Some? ==> WalkField(prefix, f).panicked.value.Unsupported?
    decreases f, 1
  {
    if !Skipped(f) && f.kind.Struct? {
      WalkFieldsPanicsIffUnsupported(FlagName(prefix, f.nameTag), f.kind.fields);
    }
  }

  lemma {:induction false} WalkFieldsPanicsIffUnsupported(prefix: string, fs: seq<FieldDecl>)
    ensures WalkFields(prefix, fs).panicked.None? <==> AllSupported(fs)
    ensures WalkFields(prefix, fs).panicked.Some? ==> WalkFields(prefix, fs).panicked.value.Unsupported?
    decreases fs, 0
  {
    if fs != [] {
      var init := fs[..|fs| - 1];
      WalkFieldsPanicsIffUnsupported(prefix, init);
      WalkFieldPanicsIffUnsupported(prefix, fs[|fs| - 1]);
      assert AllSupported(fs) <==> AllSupported(init) && FieldSupported(fs[|fs| - 1]) by {
        assert forall i :: 0 <= i < |init| ==> init[i] == fs[i];
      }
    }
  }

  /** Every registered flag starts out at the zero value of its type. */
  lemma {:induction false} WalkFieldDefaultsAreZero(prefix: string, f: FieldDecl)
    ensures forall fl :: fl in WalkField(prefix, f).flags ==> fl.default == ZeroOf(fl.flagType)
    decreases f, 1
  {
    if !Skipped(f) && f.kind.Struct? {
      WalkFieldsDefaultsAreZero(FlagName(prefix, f.nameTag), f.kind.fields);
    }
  }

  lemma {:induction false} WalkFieldsDefaultsAreZero(prefix: string, fs: seq<FieldDecl>)
    ensures forall fl :: fl in WalkFields(prefix, fs).flags ==> fl.default == ZeroOf(fl.flagType)
    decreases fs, 0
  {
    if fs != [] {
      WalkFieldsDefaultsAreZero(prefix, fs[..|fs| - 1]);
      WalkFieldDefaultsAreZero(prefix, fs[|fs| - 1]);
    }
  }

  /** Under a non-empty prefix `p`, every registered flag is named `p.` followed
      by the rest of its dotted path. */
  lemma {:induction false} WalkFieldNamesUnderPrefix(prefix: string, f: FieldDecl)
    requires prefix != ""
    ensures forall fl :: fl in WalkField(prefix, f).flags ==> prefix + "." <= fl.name
    decreases f, 1
  {
    if !Skipped(f) {
      var name := FlagName(prefix, f.nameTag);
      assert prefix + "." <= name by {
        assert name == (prefix + ".") + f.nameTag;
      }
      if f.kind.Struct? {
        WalkFieldsNamesUnderPrefix(name, f.kind.fields);
        forall fl | fl in WalkField(prefix, f).flags
          ensures prefix + "." <= fl.name
        {
          PrefixOfPrefix(prefix + ".", name, name + ".", fl.name);
        }
      }
    }
  }

  lemma {:induction false} WalkFieldsNamesUnderPrefix(prefix: string, fs: seq<FieldDecl>)
    requires prefix != ""
    ensures forall fl :: fl in WalkFields(prefix, fs).flags ==> prefix + "." <= fl.name
    decreases fs, 0
  {
    if fs != [] {
      WalkFieldsNamesUnderPrefix(prefix, fs[..|fs| - 1]);
      WalkFieldNamesUnderPrefix(prefix, fs[|fs| - 1]);
    }
  }

  lemma ConcatAssoc<T>(a: seq<T>, b: seq<T>, c: seq<T>)
    ensures a + b + c == a + (b + c)
  {
  }

  /** Helper: a prefix of `n` is a prefix of `n + "."` and so of anything `n + "."` prefixes. */
  lemma PrefixOfPrefix(p: string, n: string, m: string, s: string)
    requires p <= n && m == n + "." && m <= s
    ensures p <= s
  {
    assert s[..|n|] == n;
  }

  // ---------------------------------------------------------------------
  // Environment keys

  /** The environment key replacer: every `.` and every `-` becomes `_`. */
  function EnvKey(key: string): (r: string)
    ensures |r| == |key|
    ensures forall i :: 0 <= i < |key| ==>
              r[i] == (if key[i] == '.' || key[i] == '-' then '_' else key[i])
  {
    if key == [] then []
    else [if key[0] == '.' || key[0] == '-' then '_' else key[0]] + EnvKey(key[1..])
  }

  /** A replaced key contains no separator any more, so replacing twice
      changes nothing. */
  lemma EnvKeyHasNoSeparators(key: string)
    ensures '.' !in EnvKey(key) && '-' !in EnvKey(key)
    ensures EnvKey(EnvKey(key)) == EnvKey(key)
  {
  }

  /** The key of a nested flag `p.n` is the key of `p`, an underscore, and the key of `n`. */
  lemma EnvKeyOfDottedName(p: string, n: string)
    ensures EnvKey(p + "." + n) == EnvKey(p) + "_" + EnvKey(n)
  {
  }

  // ---------------------------------------------------------------------
  // The manager

  /** The configuration manager: its name and the flag set it registers into.
      `configFile` is the file path the settings source is told to read. */
  class Manager {
    const name: string
    var flags: seq<Flag>
    var configFile: string

    /** A new manager with an empty flag set and no config file chosen. */
    constructor (name: string)
      ensures this.name == name && flags == [] && configFile == ""
    {
      this.name := name;
      flags := [];
      configFile := "";
    }

    /** Registers the flags of a field list under `prefix`, depth-first in
        declaration order. A `Some` result is the panic on an unknown kind;
        flags registered before it stay. */
    method ParseStructToFlags(prefix: string, fs: seq<FieldDecl>) returns (panicked: Option<Kind>)
      modifies this`flags
      ensures flags == old(flags) + WalkFields(prefix, fs).flags
      ensures panicked == WalkFields(prefix, fs).panicked
      decreases fs, 1
    {
      var i := 0;
      while i < |fs|
        invariant 0 <= i <= |fs|
        invariant WalkFields(prefix, fs[..i]).panicked.None?
        invariant flags == old(flags) + WalkFields(prefix, fs[..i]).flags
      {
        WalkFieldsStep(prefix, fs, i);
        var p := RegisterField(prefix, fs[i]);
        if p.Some? {
          PanicStopsWalk(prefix, fs, i + 1);
          return p;
        }
        ConcatAssoc(old(flags), WalkFields(prefix, fs[..i]).flags, WalkField(prefix, fs[i]).flags);
        i := i + 1;
      }
      assert fs[..i] == fs;
      return None;
    }

    /** The body of the walk's loop for one field: skip it, recurse into a
        struct, panic on an unknown kind, or register its one flag. */
    method RegisterField(prefix: string, field: FieldDecl) returns (panicked: Option<Kind>)
      modifies this`flags
      ensures flags == old(flags) + WalkField(prefix, field).flags
      ensures panicked == WalkField(prefix, field).panicked
      decreases field, 0
    {
      if (field.nameTag == "" || field.nameTag == "-") && !field.kind.Struct? {
        return None;
      }
      var name := if prefix != "" then prefix + "." + field.nameTag else field.nameTag;
      if field.kind.Struct? {
        panicked := ParseStructToFlags(name, field.kind.fields);
      } else if field.kind.Unsupported? {
        panicked := Some(field.kind);
      } else {
        flags := flags + [LeafFlag(name, field).value];
        panicked := None;
      }
    }

    /** Registers the flags of the root configuration type, which must be a
        struct; a `Some` result is the panic. */
    method InitFlags(root: Kind) returns (panicked: Option<Panic>)
      modifies this`flags
      ensures !root.Struct? ==> panicked == Some(NotAStruct) && flags == old(flags)
      ensures root.Struct? ==> flags == old(flags) + WalkFields("", root.fields).flags
      ensures root.Struct? ==>
                panicked == (match WalkFields("", root.fields).panicked
                             case None => None
                             case Some(k) => Some(UnknownType(k)))
    {
      if !root.Struct? {
        return Some(NotAStruct);
      }
      var p := ParseStructToFlags("", root.fields);
      panicked := if p.Some? then Some(UnknownType(p.value)) else None;
    }

    /** Reads the file named by the `config` flag. `configFlag` is that flag's
        value (None when it cannot be read as a string, which reads as empty)
        and `mergeErr` the outcome of merging the file in. An empty path does
        nothing and succeeds. */
    method ReadFromFile(configFlag: Option<string>, mergeErr: Option<string>) returns (err: Option<string>)
      modifies this`configFile
      ensures configFlag.GetOr("") == "" ==> err == None && configFile == old(configFile)
      ensures configFlag.GetOr("") != "" ==> err == mergeErr && configFile == configFlag.value
    {
      var path := configFlag.GetOr("");
      if path != "" {
        configFile := path;
        return mergeErr;
      }
      return None;
    }

    /** Decodes the merged settings into the caller's struct. Only a failure to
        build the decoder is reported; the decode's own error is dropped. */
    method Unmarshal(newDecoderErr: Option<string>, decodeErr: Option<string>) returns (err: Option<string>)
      ensures err == newDecoderErr
    {
      if newDecoderErr.Some? {
        return newDecoderErr;
      }
      return None;
    }
  }
}
