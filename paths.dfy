/**
 * The part of Rust's `std::path` the removal correlation uses, on Unix:
 * a path is compared through its components, so `Path::starts_with` is a
 * prefix test on component lists, not on characters.
 */
module Paths {
  import opened Text

  datatype Component = RootDir | CurDir | ParentDir | Normal(name: string)

  /** The component one '/'-separated field contributes: empty fields and "." vanish. */
  function FieldComponent(field: string): seq<Component> {
    if field == "" || field == "." then []
    else if field == ".." then [ParentDir]
    else [Normal(field)]
  }

  function FieldComponents(fields: seq<string>): (r: seq<Component>)
    ensures |r| <= |fields|
    ensures forall i | 0 <= i < |r| :: r[i].ParentDir? || r[i].Normal?
  {
    if fields == [] then [] else FieldComponent(fields[0]) + FieldComponents(fields[1..])
  }

  /**
   * `Path::components` on Unix: a leading '/' gives the root; otherwise a
   * leading "." field gives the current directory; then every field that is
   * neither empty nor "." gives one component.
   */
  function Components(p: string): seq<Component> {
    var fields := Split(p, '/');
    (if p != [] && p[0] == '/' then [RootDir] else if fields[0] == "." then [CurDir] else [])
      + FieldComponents(fields)
  }

  /** `path == other` for `Path`: equal component lists. */
  predicate SamePath(p: string, other: string) {
    Components(p) == Components(other)
  }

  /** `path.starts_with(base)`: the components of `base` are a prefix of those of `path`. */
  predicate StartsWith(p: string, base: string) {
    Components(base) <= Components(p)
  }

  /** A single path component name: not empty, not "." or "..", and without '/'. */
  predicate IsPlainName(name: string) {
    name != "" && name != "." && name != ".." && '/' !in name
  }

  /** The absolute path "/n1/n2/.../nk" built from component names (k >= 1). */
  function AbsolutePath(names: seq<string>): string
    requires names != []
  {
    Join([""] + names, '/')
  }

  lemma {:induction false} FieldComponentsAppend(a: seq<string>, b: seq<string>)
    ensures FieldComponents(a + b) == FieldComponents(a) + FieldComponents(b)
    decreases |a|
  {
    if a != [] {
      assert (a + b)[1..] == a[1..] + b;
      FieldComponentsAppend(a[1..], b);
    } else {
      assert a + b == b;
    }
  }

  /** Plain names map one to one onto `Normal` components. */
  lemma {:induction false} FieldComponentsOfPlainNames(names: seq<string>)
    requires forall i | 0 <= i < |names| :: IsPlainName(names[i])
    ensures FieldComponents(names) == seq(|names|, i requires 0 <= i < |names| => Normal(names[i]))
    decreases |names|
  {
    if names != [] {
      FieldComponentsOfPlainNames(names[1..]);
    }
  }

  /**
   * Appending "/name" to a non-empty path appends exactly the component of
   * `name` (so a child path always starts with its parent).
   */
  lemma ComponentsOfChild(p: string, name: string)
    requires p != [] && '/' !in name
    ensures Components(p + "/" + name) == Components(p) + FieldComponent(name)
  {
    var q := p + "/" + name;
    SplitAppend(p, '/', name);
    assert Split(q, '/') == Split(p, '/') + [name];
    assert q[0] == p[0];
    FieldComponentsAppend(Split(p, '/'), [name]);
    assert FieldComponents([name]) == FieldComponent(name) by {
      assert [name][1..] == [];
    }
  }

  /** A device path below `p` in the sysfs tree starts with `p`. */
  lemma ChildStartsWithParent(p: string, name: string)
    requires p != [] && '/' !in name
    ensures StartsWith(p + "/" + name, p)
    ensures !StartsWith(p, p + "/" + name) <==> FieldComponent(name) != []
  {
    ComponentsOfChild(p, name);
  }

  /** The components of "/n1/.../nk" are the root and then the names. */
  lemma ComponentsOfAbsolutePath(names: seq<string>)
    requires names != []
    requires forall i | 0 <= i < |names| :: IsPlainName(names[i])
    ensures Components(AbsolutePath(names)) == [RootDir] + seq(|names|, i requires 0 <= i < |names| => Normal(names[i]))
  {
    var fields := [""] + names;
    forall i | 0 <= i < |fields| ensures '/' !in fields[i] {
      if i > 0 { assert fields[i] == names[i - 1]; }
    }
    SplitJoin(fields, '/');
    assert AbsolutePath(names)[0] == '/';
    FieldComponentsOfPlainNames(names);
    assert FieldComponents(fields) == FieldComponents(names) by {
      assert fields[1..] == names;
    }
  }

  /**
   * For absolute paths of plain names, `starts_with` is a prefix test on the
   * name lists: "/devices/usb1/1-1" is not a prefix of "/devices/usb1/1-10".
   */
  lemma {:induction false} AbsoluteStartsWithIff(names: seq<string>, base: seq<string>)
    requires names != [] && base != []
    requires forall i | 0 <= i < |names| :: IsPlainName(names[i])
    requires forall i | 0 <= i < |base| :: IsPlainName(base[i])
    ensures StartsWith(AbsolutePath(names), AbsolutePath(base)) <==> base <= names
  {
    ComponentsOfAbsolutePath(names);
    ComponentsOfAbsolutePath(base);
    var cn := seq(|names|, i requires 0 <= i < |names| => Normal(names[i]));
    var cb := seq(|base|, i requires 0 <= i < |base| => Normal(base[i]));
    if [RootDir] + cb <= [RootDir] + cn {
      assert |base| <= |names|;
      forall i | 0 <= i < |base| ensures base[i] == names[i] {
        assert ([RootDir] + cb)[i + 1] == ([RootDir] + cn)[i + 1];
      }
    }
    if base <= names {
      forall i | 0 <= i < |base| + 1 ensures ([RootDir] + cb)[i] == ([RootDir] + cn)[i] {
      }
    }
  }
}
