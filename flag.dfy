/** The `--replicate` style command-line flags (cmd/kube-mgmt/flag.go): a
    group/version/kind written `group/version/kind` or `version/kind`, and a
    repeatable flag collecting them. */
module Flags {
  import opened Wrappers
  import opened Strings

  const ErrBadFormat: string := "format: group/version/kind"

  datatype GroupVersionKind = GroupVersionKind(group: string, version: string, kind: string)

  const NoKind: GroupVersionKind := GroupVersionKind("", "", "")

  /** `groupVersionKind.String`: the group is left out when empty. */
  function Format(gvk: GroupVersionKind): (r: string)
    ensures gvk.group != "" ==> r == Join([gvk.group, gvk.version, gvk.kind], "/")
    ensures gvk.group == "" ==> r == Join([gvk.version, gvk.kind], "/")
  {
    var vk := gvk.version + "/" + gvk.kind;
    assert Join([gvk.version, gvk.kind], "/") == vk by {
      JoinCons(gvk.version, [gvk.kind], "/");
    }
    if gvk.group != "" then
      assert Join([gvk.group, gvk.version, gvk.kind], "/") == gvk.group + "/" + vk by {
        JoinCons(gvk.group, [gvk.version, gvk.kind], "/");
        assert [gvk.group] + [gvk.version, gvk.kind] == [gvk.group, gvk.version, gvk.kind];
      }
      gvk.group + "/" + gvk.version + "/" + gvk.kind
    else vk
  }

  predicate HasEmptyPart(parts: seq<string>)
  {
    exists i :: 0 <= i < |parts| && parts[i] == ""
  }

  /** The fields `groupVersionKind.Parse` gives the receiver `gvk` from the
      parts of the value: none may be empty and there must be at least two;
      they are lower-cased, and two parts set only the version and the kind. */
  function FromParts(gvk: GroupVersionKind, parts: seq<string>): (r: Result<GroupVersionKind, string>)
    ensures r.Failure? ==> r.error == ErrBadFormat
    ensures r.Failure? <==> HasEmptyPart(parts) || |parts| < 2
    ensures r.Success? && |parts| <= 3 ==> r.value.version != "" && r.value.kind != ""
    ensures r.Success? && |parts| <= 3 ==> IsLower(r.value.version) && IsLower(r.value.kind)
    ensures r.Success? && IsLower(gvk.group) && |parts| <= 3 ==> IsLower(r.value.group)
  {
    if HasEmptyPart(parts) || |parts| < 2 then Failure(ErrBadFormat)
    else if |parts| == 2 then Success(gvk.(version := ToLower(parts[0]), kind := ToLower(parts[1])))
    else
      assert parts[1] != "" && parts[2] != "";
      Success(GroupVersionKind(ToLower(parts[0]), ToLower(parts[1]), ToLower(parts[2])))
  }

  lemma NoEmptyPart(parts: seq<string>)
    requires forall i :: 0 <= i < |parts| ==> |parts[i]| > 0
    ensures !HasEmptyPart(parts)
  {
  }

  /** `groupVersionKind.Parse` on the receiver `gvk`: the value split at its
      first two slashes. */
  function ParseResult(gvk: GroupVersionKind, value: string): (r: Result<GroupVersionKind, string>)
    ensures r.Failure? ==> r.error == ErrBadFormat
    ensures r.Success? ==> r.value.version != "" && r.value.kind != "" && '/' !in r.value.version
    ensures r.Success? ==> IsLower(r.value.version) && IsLower(r.value.kind)
  {
    var parts := SplitN(value, '/', 3);
    var r := FromParts(gvk, parts);
    assert r.Success? ==> r.value.version == ToLower(parts[|parts| - 2]);
    r
  }

  /** `groupVersionKind.Parse`, lower-casing the parts one at a time and
      returning the receiver as it is afterwards. */
  method Parse(gvk: GroupVersionKind, value: string) returns (err: Option<string>, updated: GroupVersionKind)
    ensures match ParseResult(gvk, value)
      case Success(g) => err.None? && updated == g
      case Failure(e) => err == Some(e) && updated == gvk
  {
    assert ParseResult(gvk, value) == FromParts(gvk, SplitN(value, '/', 3));
    ghost var split := SplitN(value, '/', 3);
    var parts := SplitN(value, '/', 3);
    var i := 0;
    while i < |parts|
      invariant 0 <= i <= |parts| && |parts| == |split|
      invariant forall j :: 0 <= j < i ==> split[j] != "" && parts[j] == ToLower(split[j])
      invariant forall j :: i <= j < |parts| ==> parts[j] == split[j]
    {
      if |parts[i]| == 0 {
        return Some(ErrBadFormat), gvk;
      }
      parts := parts[i := ToLower(parts[i])];
      i := i + 1;
    }
    if |parts| < 2 {
      return Some(ErrBadFormat), gvk;
    }
    updated := gvk;
    if |parts| == 2 {
      updated := updated.(version := parts[0], kind := parts[1]);
    } else {
      updated := updated.(group := parts[0], version := parts[1], kind := parts[2]);
    }
    err := None;
  }

  /** What `Format` prints, `Parse` reads back, for lower-case parts without
      slashes and a version and kind. */
  lemma ParseFormat(gvk: GroupVersionKind)
    requires gvk.version != "" && gvk.kind != ""
    requires '/' !in gvk.group && '/' !in gvk.version && '/' !in gvk.kind
    requires IsLower(gvk.group) && IsLower(gvk.version) && IsLower(gvk.kind)
    ensures ParseResult(NoKind, Format(gvk)) == Success(gvk)
  {
    var g, v, k := gvk.group, gvk.version, gvk.kind;
    if g != "" {
      assert SplitN(Format(gvk), '/', 3) == [g, v, k] by {
        SplitNThree(g, v, k, '/');
      }
      NoEmptyPart([g, v, k]);
    } else {
      assert SplitN(Format(gvk), '/', 3) == [v, k] by {
        SplitNTwo(v, k, '/');
      }
      NoEmptyPart([v, k]);
    }
  }

  /** Only the first two slashes split: a kind after a group and a version
      keeps its own slashes. */
  lemma ParseKeepsSlashInKind(group: string, version: string, kind: string)
    requires group != "" && version != "" && kind != ""
    requires '/' !in group && '/' !in version
    ensures ParseResult(NoKind, group + "/" + version + "/" + kind) ==
      Success(GroupVersionKind(ToLower(group), ToLower(version), ToLower(kind)))
  {
    assert SplitN(group + "/" + version + "/" + kind, '/', 3) == [group, version, kind] by {
      SplitNThree(group, version, kind, '/');
    }
    NoEmptyPart([group, version, kind]);
  }

  /** A value with a trailing slash has an empty last part and is refused. */
  lemma ParseRejectsTrailingSlash(a: string, b: string)
    requires a != "" && b != "" && '/' !in a && '/' !in b
    ensures ParseResult(NoKind, a + "/" + b + "/") == Failure(ErrBadFormat)
  {
    assert SplitN(a + "/" + b + "/", '/', 3) == [a, b, ""] by {
      SplitNThree(a, b, "", '/');
      assert a + "/" + b + "/" + "" == a + "/" + b + "/";
    }
    assert [a, b, ""][2] == "";
  }

  /** A value without a slash is a single part and is refused. */
  lemma ParseRejectsSinglePart(a: string)
    requires '/' !in a
    ensures ParseResult(NoKind, a) == Failure(ErrBadFormat)
  {
    SplitNSingle(a, '/', 3);
  }

  /** Two parts leave the receiver's group alone: from a fresh value the
      group stays empty. */
  lemma ParseTwoParts(version: string, kind: string)
    requires version != "" && kind != "" && '/' !in version && '/' !in kind
    ensures ParseResult(NoKind, version + "/" + kind) == Success(GroupVersionKind("", ToLower(version), ToLower(kind)))
  {
    assert SplitN(version + "/" + kind, '/', 3) == [version, kind] by {
      SplitNTwo(version, kind, '/');
    }
    NoEmptyPart([version, kind]);
  }

  /** `fmt.Sprint` of the flag's list: the elements in brackets, separated by
      spaces. */
  function FormatAll(items: seq<GroupVersionKind>): (r: string)
    ensures |r| >= 2 && r[0] == '[' && r[|r| - 1] == ']'
  {
    "[" + Join(FormatEach(items), " ") + "]"
  }

  function FormatEach(items: seq<GroupVersionKind>): (r: seq<string>)
    ensures |r| == |items| && forall i :: 0 <= i < |items| ==> r[i] == Format(items[i])
    decreases |items|
  {
    if items == [] then [] else [Format(items[0])] + FormatEach(items[1..])
  }

  /** `gvkFlag`: the values given so far. */
  class GvkFlag {
    var items: seq<GroupVersionKind>

    constructor ()
      ensures items == []
    {
      items := [];
    }

    /** `gvkFlag.String`. */
    function Text(): (r: string)
      reads this
      ensures |items| == 1 ==> r == "[" + Format(items[0]) + "]"
    {
      FormatAll(items)
    }

    /** `gvkFlag.Set`: parses into a fresh value and appends it; a value that
        does not parse leaves the list alone. */
    method Set(value: string) returns (err: Option<string>)
      modifies this
      ensures match ParseResult(NoKind, value)
        case Success(g) => err.None? && items == old(items) + [g]
        case Failure(e) => err == Some(e) && items == old(items)
    {
      var parseErr, gvk := Parse(NoKind, value);
      if parseErr.Some? {
        return parseErr;
      }
      items := items + [gvk];
      err := None;
    }
  }
}
