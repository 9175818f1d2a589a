/**
 * The icon resolver: a kebab-case icon name is turned into the PascalCase
 * export name of the icon library (`'arrow-right'` to `'ArrowRight'`) and
 * looked up in the library, falling back to `HelpCircle`.
 */
module IconUtils {
  import opened Text

  /** `parts.join('-')`. */
  function Join(parts: seq<string>): string {
    if |parts| == 0 then ""
    else if |parts| == 1 then parts[0]
    else parts[0] + "-" + Join(parts[1..])
  }

  /**
   * `s.split('-')`: the maximal dash-free runs of `s`, one more than the
   * number of dashes, empty runs included.
   */
  function Split(s: string): (parts: seq<string>)
    ensures |parts| >= 1
  {
    if |s| == 0 then [""]
    else
      var rest := Split(s[1..]);
      if s[0] == '-' then [""] + rest
      else [[s[0]] + rest[0]] + rest[1..]
  }

  /** There is one more part than there are dashes. */
  lemma {:induction false} SplitCount(s: string)
    ensures |Split(s)| == multiset(s)['-'] + 1
  {
    if |s| > 0 {
      assert s == [s[0]] + s[1..];
      SplitCount(s[1..]);
    }
  }

  /** No part contains a dash. */
  lemma {:induction false} SplitNoDash(s: string)
    ensures forall i :: 0 <= i < |Split(s)| ==> '-' !in Split(s)[i]
  {
    if |s| > 0 {
      SplitNoDash(s[1..]);
      var rest := Split(s[1..]);
      if s[0] != '-' {
        assert '-' !in [s[0]] + rest[0];
      }
    }
  }

  /** Joining the parts of a split with `-` gives back the original string. */
  lemma {:induction false} JoinSplit(s: string)
    ensures Join(Split(s)) == s
  {
    if |s| > 0 {
      var rest := Split(s[1..]);
      JoinSplit(s[1..]);
      var parts := Split(s);
      if s[0] == '-' {
        assert parts == [""] + rest;
        assert parts[1..] == rest;
        calc {
          Join(parts);
          parts[0] + "-" + Join(parts[1..]);
          "" + "-" + s[1..];
          s;
        }
      } else {
        var head := [s[0]] + rest[0];
        assert parts == [head] + rest[1..];
        if |rest| == 1 {
          assert Join(parts) == head;
          assert rest[0] == Join(rest);
        } else {
          assert parts[1..] == rest[1..];
          var tail := Join(rest[1..]);
          assert Join(parts) == head + "-" + tail;
          assert s[1..] == rest[0] + "-" + tail;
          ConcatAssoc(head, "-", tail);
          ConcatAssoc([s[0]], rest[0], "-" + tail);
          ConcatAssoc(rest[0], "-", tail);
          assert [s[0]] + s[1..] == s;
        }
      }
    }
  }

  /** Splitting a `-`-join of dash-free parts gives back those parts. */
  lemma {:induction false} SplitJoin(parts: seq<string>)
    requires |parts| >= 1
    requires forall i :: 0 <= i < |parts| ==> '-' !in parts[i]
    ensures Split(Join(parts)) == parts
  {
    if |parts| == 1 {
      SplitDashFree(parts[0]);
    } else {
      var tail := parts[1..];
      SplitJoin(tail);
      SplitPrefix(parts[0], Join(tail));
    }
  }

  /** A dash-free string splits into itself alone. */
  lemma {:induction false} SplitDashFree(s: string)
    requires '-' !in s
    ensures Split(s) == [s]
  {
    if |s| > 0 {
      assert '-' !in s[1..];
      SplitDashFree(s[1..]);
      assert [s[0]] + s[1..] == s;
    }
  }

  /** Splitting `p + "-" + t`, for dash-free `p`, puts `p` in front of the parts of `t`. */
  lemma {:induction false} SplitPrefix(p: string, t: string)
    requires '-' !in p
    ensures Split(p + "-" + t) == [p] + Split(t)
    decreases |p|
  {
    var s := p + "-" + t;
    if |p| == 0 {
      assert s[0] == '-' && s[1..] == t;
    } else {
      assert s[0] == p[0] && s[1..] == p[1..] + "-" + t;
      assert '-' !in p[1..];
      SplitPrefix(p[1..], t);
      assert [p[0]] + p[1..] == p;
    }
  }

  /** `parts.map(part => part.charAt(0).toUpperCase() + part.slice(1)).join('')`. */
  function CapitalizeAll(parts: seq<string>): string {
    if |parts| == 0 then "" else Capitalize(parts[0]) + CapitalizeAll(parts[1..])
  }

  /** The kebab-to-Pascal conversion, as the resolver writes it. */
  function ToPascal(name: string): string {
    CapitalizeAll(Split(name))
  }

  /**
   * An independent, one-pass reading of the same conversion: drop every
   * dash, and upper-case each character that starts the name or follows a
   * dash. `atStart` says whether the previous character was a dash (or
   * there was none).
   */
  function Scan(s: string, atStart: bool): string {
    if |s| == 0 then ""
    else if s[0] == '-' then Scan(s[1..], true)
    else [if atStart then Upper(s[0]) else s[0]] + Scan(s[1..], false)
  }

  /** The scan agrees with split/capitalize/join, segment by segment. */
  lemma {:induction false} ScanMatchesSegments(s: string, atStart: bool)
    ensures Scan(s, atStart) == SegmentsFrom(Split(s), atStart)
  {
    if |s| > 0 {
      var rest := Split(s[1..]);
      if s[0] == '-' {
        ScanMatchesSegments(s[1..], true);
        SplitDash(s);
        assert Scan(s, atStart) == Scan(s[1..], true);
      } else {
        ScanMatchesSegments(s[1..], false);
        SplitOther(s);
        var c := if atStart then Upper(s[0]) else s[0];
        assert Scan(s, atStart) == [c] + Scan(s[1..], false);
        assert Scan(s[1..], false) == rest[0] + CapitalizeAll(rest[1..]);
        SegmentsCons(s[0], rest, atStart);
      }
    }
  }

  /** The capitalized concatenation of `parts`, the first one capitalized only when `atStart`. */
  function SegmentsFrom(parts: seq<string>, atStart: bool): string
    requires |parts| >= 1
  {
    (if atStart then Capitalize(parts[0]) else parts[0]) + CapitalizeAll(parts[1..])
  }

  lemma SplitDash(s: string)
    requires |s| > 0 && s[0] == '-'
    ensures Split(s) == [""] + Split(s[1..])
    ensures SegmentsFrom(Split(s), true) == CapitalizeAll(Split(s[1..]))
    ensures SegmentsFrom(Split(s), false) == CapitalizeAll(Split(s[1..]))
  {
    var rest := Split(s[1..]);
    assert ([""] + rest)[1..] == rest;
  }

  lemma SplitOther(s: string)
    requires |s| > 0 && s[0] != '-'
    ensures Split(s) == [[s[0]] + Split(s[1..])[0]] + Split(s[1..])[1..]
  {
  }

  lemma SegmentsCons(c: char, rest: seq<string>, atStart: bool)
    requires |rest| >= 1
    ensures SegmentsFrom([[c] + rest[0]] + rest[1..], atStart) ==
      [if atStart then Upper(c) else c] + (rest[0] + CapitalizeAll(rest[1..]))
  {
    var head := [c] + rest[0];
    var parts := [head] + rest[1..];
    var tail := CapitalizeAll(rest[1..]);
    assert parts[0] == head && parts[1..] == rest[1..];
    if atStart {
      CapitalizeCons(c, rest[0]);
      assert SegmentsFrom(parts, true) == ([Upper(c)] + rest[0]) + tail;
      ConcatAssoc([Upper(c)], rest[0], tail);
    } else {
      assert SegmentsFrom(parts, false) == ([c] + rest[0]) + tail;
      ConcatAssoc([c], rest[0], tail);
    }
  }

  lemma ConcatAssoc(a: string, b: string, c: string)
    ensures (a + b) + c == a + (b + c)
  {
  }

  lemma CapitalizeCons(c: char, t: string)
    ensures Capitalize([c] + t) == [Upper(c)] + t
  {
    assert ([c] + t)[1..] == t;
  }

  /** The conversion equals the one-pass scan. */
  lemma ToPascalIsScan(name: string)
    ensures ToPascal(name) == Scan(name, true)
  {
    ScanMatchesSegments(name, true);
  }

  lemma {:induction false} ScanNoDash(s: string, atStart: bool)
    ensures '-' !in Scan(s, atStart)
  {
    if |s| > 0 {
      ScanNoDash(s[1..], s[0] == '-');
      if s[0] != '-' {
        UpperKeepsDash(s[0]);
      }
    }
  }

  lemma {:induction false} ScanLength(s: string, atStart: bool)
    ensures |Scan(s, atStart)| == |s| - multiset(s)['-']
  {
    if |s| > 0 {
      assert s == [s[0]] + s[1..];
      ScanLength(s[1..], s[0] == '-');
    }
  }

  /** A scan that starts fresh begins with a character upper-casing leaves alone. */
  lemma {:induction false} ScanFirstUpper(s: string)
    ensures |Scan(s, true)| > 0 ==> Upper(Scan(s, true)[0]) == Scan(s, true)[0]
  {
    if |s| > 0 {
      if s[0] == '-' {
        ScanFirstUpper(s[1..]);
      } else {
        UpperIdempotent(s[0]);
      }
    }
  }

  /** On a dash-free name the scan upper-cases the first character only. */
  lemma {:induction false} ScanDashFree(s: string, atStart: bool)
    requires '-' !in s
    ensures Scan(s, atStart) == if atStart then Capitalize(s) else s
  {
    if |s| > 0 {
      assert '-' !in s[1..];
      ScanDashFree(s[1..], false);
    }
  }

  /** The converted name contains no `-`. */
  lemma ToPascalNoDash(name: string)
    ensures '-' !in ToPascal(name)
  {
    ToPascalIsScan(name);
    ScanNoDash(name, true);
  }

  /** Each dash is dropped and every other character kept: the length shrinks by the number of dashes. */
  lemma ToPascalLength(name: string)
    ensures |ToPascal(name)| == |name| - multiset(name)['-']
  {
    ToPascalIsScan(name);
    ScanLength(name, true);
  }

  /** Converting an already converted name changes nothing. */
  lemma ToPascalIdempotent(name: string)
    ensures ToPascal(ToPascal(name)) == ToPascal(name)
  {
    var r := ToPascal(name);
    ToPascalIsScan(name);
    ToPascalIsScan(r);
    ScanNoDash(name, true);
    ScanDashFree(r, true);
    ScanFirstUpper(name);
  }

  /**
   * Joining dash-free segments with `-` and converting gives each segment,
   * in order, with its first character upper-cased and the rest unchanged.
   */
  lemma ToPascalOfJoin(parts: seq<string>)
    requires |parts| >= 1
    requires forall i :: 0 <= i < |parts| ==> '-' !in parts[i]
    ensures ToPascal(Join(parts)) == CapitalizeAll(parts)
  {
    SplitJoin(parts);
  }

  /**
   * The resolver's own example: `'arrow-right'` names the `ArrowRight`
   * export. The name is a parameter so that the literal is not unfolded
   * character by character.
   */
  lemma ArrowRight(name: string)
    requires name == "arrow-right"
    ensures ToPascal(name) == "ArrowRight"
  {
    var parts := ["arrow", "right"];
    assert Join(parts) == name;
    ToPascalOfJoin(parts);
    assert CapitalizeAll(parts) == Capitalize("arrow") + (Capitalize("right") + "") by {
      assert parts[1..] == ["right"];
      assert ["right"][1..] == [];
    }
    assert Capitalize("arrow") == "Arrow";
    assert Capitalize("right") == "Right";
  }

  /** The library's fallback export. */
  const Fallback: string := "HelpCircle"

  /**
   * `Icons[pascalCaseName] || Icons.HelpCircle`, over a registry of export
   * names. The library always exports the fallback, so the lookup is total.
   */
  function GetIcon<T(==)>(registry: map<string, T>, name: string): (icon: T)
    requires Fallback in registry
    ensures icon in registry.Values
    ensures ToPascal(name) in registry ==> icon == registry[ToPascal(name)]
    ensures ToPascal(name) !in registry ==> icon == registry[Fallback]
  {
    var key := ToPascal(name);
    if key in registry then registry[key] else registry[Fallback]
  }

  /** A name in kebab case and its PascalCase form resolve to the same icon. */
  lemma GetIconKebabOrPascal<T>(registry: map<string, T>, name: string)
    requires Fallback in registry
    ensures GetIcon(registry, ToPascal(name)) == GetIcon(registry, name)
  {
    ToPascalIdempotent(name);
  }
}
