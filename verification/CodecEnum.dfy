/** Looking up a codec by its name in a table sorted by name. */
module CodecEnum {
  import opened Strings

  datatype Codec =
    | Etc1 | Etc2RgbaEtc1 | Etc2Rgb | Etc2Rgba | EacR11 | EacRg11
    | Bc1 | Bc3 | Bc4 | Bc4Snorm | Bc5 | Bc5Snorm | Bc6h

  datatype EnumData = EnumData(enumValue: Codec, enumString: string)

  /** std::string's operator<: byte by byte, a proper prefix first. */
  predicate Less(a: string, b: string) {
    b != "" && (a == "" || a[0] < b[0] || (a[0] == b[0] && Less(a[1..], b[1..])))
  }

  lemma {:induction false} LessIsTransitive(a: string, b: string, c: string)
    requires Less(a, b) && Less(b, c)
    ensures Less(a, c)
  {
    if a != "" && a[0] == b[0] == c[0] {
      LessIsTransitive(a[1..], b[1..], c[1..]);
    }
  }

  lemma {:induction false} LessIsTotal(a: string, b: string)
    ensures a == b || Less(a, b) || Less(b, a)
    ensures !(Less(a, b) && Less(b, a)) && !Less(a, a)
  {
    if a != "" {
      LessIsTotal(a[1..], a[1..]);
    }
    if a != "" && b != "" && a[0] == b[0] {
      LessIsTotal(a[1..], b[1..]);
      assert a == [a[0]] + a[1..] && b == [b[0]] + b[1..];
    }
  }

  ghost predicate StrictlySorted(table: seq<EnumData>) {
    forall i, j :: 0 <= i < j < |table| ==> Less(table[i].enumString, table[j].enumString)
  }

  /** The value of the first entry of that name. */
  function Lookup(table: seq<EnumData>, name: string): (r: Option<Codec>)
    ensures r.Some? ==> EnumData(r.value, name) in table
    ensures r.None? ==> forall d :: d in table ==> d.enumString != name
  {
    if table == [] then None
    else if table[0].enumString == name then Some(table[0].enumValue)
    else Lookup(table[1..], name)
  }

  /** std::lower_bound: the first position whose name is not below name. */
  method LowerBound(table: seq<EnumData>, name: string) returns (pos: nat)
    requires StrictlySorted(table)
    ensures pos <= |table|
    ensures forall i :: 0 <= i < pos ==> Less(table[i].enumString, name)
    ensures forall i :: pos <= i < |table| ==> !Less(table[i].enumString, name)
  {
    pos := 0;
    var count := |table|;
    while count > 0
      invariant 0 <= count <= |table| - pos
      invariant forall i :: 0 <= i < pos ==> Less(table[i].enumString, name)
      invariant forall i :: pos + count <= i < |table| ==> !Less(table[i].enumString, name)
    {
      var step := count / 2;
      if Less(table[pos + step].enumString, name) {
        forall i | 0 <= i < pos + step ensures Less(table[i].enumString, name) {
          LessIsTransitive(table[i].enumString, table[pos + step].enumString, name);
        }
        pos, count := pos + step + 1, count - step - 1;
      } else {
        forall i | pos + step < i < |table| ensures !Less(table[i].enumString, name) {
          if Less(table[i].enumString, name) {
            LessIsTransitive(table[pos + step].enumString, table[i].enumString, name);
          }
        }
        count := step;
      }
    }
  }

  /** Finds exactly the names that are present; value keeps outValue otherwise. */
  method Find(table: seq<EnumData>, name: string, outValue: Codec) returns (found: bool, value: Codec)
    requires StrictlySorted(table)
    ensures found == Lookup(table, name).Some?
    ensures value == if found then Lookup(table, name).value else outValue
    ensures found <==> exists i :: 0 <= i < |table| && table[i].enumString == name
    ensures forall i :: 0 <= i < |table| && table[i].enumString == name ==> value == table[i].enumValue
  {
    LessIsTotal(name, name);
    var pos := LowerBound(table, name);
    NamesAreUnique(table);
    if pos != |table| && table[pos].enumString == name {
      return true, table[pos].enumValue;
    }
    forall i | 0 <= i < |table| ensures table[i].enumString != name {
      if pos < i {
        LessIsTotal(table[pos].enumString, name);
        LessIsTotal(name, table[i].enumString);
      }
    }
    return false, outValue;
  }

  lemma NamesAreUnique(table: seq<EnumData>)
    requires StrictlySorted(table)
    ensures forall i, j :: 0 <= i < |table| && 0 <= j < |table| && table[i].enumString == table[j].enumString ==> i == j
  {
    forall i, j | 0 <= i < j < |table| ensures table[i].enumString != table[j].enumString {
      LessIsTotal(table[i].enumString, table[j].enumString);
    }
  }

  /** The entries that find searches; the "__INVALID" sentinel after them is not among them. */
  const SORTED_BY_STRING: seq<EnumData> := [
    EnumData(Bc1, "bc1"), EnumData(Bc3, "bc3"), EnumData(Bc4, "bc4"), EnumData(Bc4Snorm, "bc4_snorm"),
    EnumData(Bc5, "bc5"), EnumData(Bc5Snorm, "bc5_snorm"), EnumData(Bc6h, "bc6h"),
    EnumData(EacR11, "eac_r11"), EnumData(EacRg11, "eac_rg11"), EnumData(Etc1, "etc1"),
    EnumData(Etc2Rgb, "etc2_rgb"), EnumData(Etc2Rgba, "etc2_rgba"), EnumData(Etc2RgbaEtc1, "etc2_rgba_etc1")
  ]

  /** Names that agree on the first k characters are ordered by what follows. */
  lemma {:induction false} LessFrom(a: string, b: string, k: nat)
    requires k <= |a| && k < |b| && a[..k] == b[..k]
    requires k == |a| || a[k] < b[k]
    ensures Less(a, b)
  {
    if k > 0 {
      assert a[0] == a[..k][0] == b[0];
      assert a[1..][..k - 1] == a[..k][1..] == b[..k][1..] == b[1..][..k - 1];
      LessFrom(a[1..], b[1..], k - 1);
    }
  }

  ghost predicate InOrder(table: seq<EnumData>, i: nat) {
    i + 1 < |table| ==> Less(table[i].enumString, table[i + 1].enumString)
  }

  lemma {:induction false} AdjacentSorted(table: seq<EnumData>, i: nat, j: nat)
    requires forall k: nat :: InOrder(table, k)
    requires i < j < |table|
    ensures Less(table[i].enumString, table[j].enumString)
  {
    assert InOrder(table, j - 1);
    if i < j - 1 {
      AdjacentSorted(table, i, j - 1);
      LessIsTransitive(table[i].enumString, table[j - 1].enumString, table[j].enumString);
    }
  }

  /** The shipped table can be searched this way. */
  lemma ShippedTableIsSorted()
    ensures StrictlySorted(SORTED_BY_STRING)
  {
    hide Less;
    var table := SORTED_BY_STRING;
    forall k: nat ensures InOrder(table, k) {
      LessFrom("bc1", "bc3", 2);
      LessFrom("bc3", "bc4", 2);
      LessFrom("bc4", "bc4_snorm", 3);
      LessFrom("bc4_snorm", "bc5", 2);
      LessFrom("bc5", "bc5_snorm", 3);
      LessFrom("bc5_snorm", "bc6h", 2);
      LessFrom("bc6h", "eac_r11", 0);
      LessFrom("eac_r11", "eac_rg11", 5);
      LessFrom("eac_rg11", "etc1", 1);
      LessFrom("etc1", "etc2_rgb", 3);
      LessFrom("etc2_rgb", "etc2_rgba", 8);
      LessFrom("etc2_rgba", "etc2_rgba_etc1", 9);
    }
    forall i, j | 0 <= i < j < |table| ensures Less(table[i].enumString, table[j].enumString) {
      AdjacentSorted(table, i, j);
    }
  }

  lemma LookupAt(table: seq<EnumData>, i: nat)
    requires StrictlySorted(table) && i < |table|
    ensures Lookup(table, table[i].enumString) == Some(table[i].enumValue)
  {
    hide Lookup;
    NamesAreUnique(table);
    var r := Lookup(table, table[i].enumString);
    if r.Some? {
      var j :| 0 <= j < |table| && table[j] == EnumData(r.value, table[i].enumString);
    }
  }

  /** Entry i of the shipped table. */
  predicate Entry(i: nat, name: string, codec: Codec) {
    i < |SORTED_BY_STRING| && SORTED_BY_STRING[i] == EnumData(codec, name)
  }

  lemma EntryIsFound(i: nat, name: string, codec: Codec)
    requires Entry(i, name, codec)
    ensures Finds(name, codec)
  {
    hide Lookup, StrictlySorted;
    ShippedTableIsSorted();
    LookupAt(SORTED_BY_STRING, i);
  }

  /** Looking up name in the shipped table gives codec. */
  predicate Finds(name: string, codec: Codec) { Lookup(SORTED_BY_STRING, name) == Some(codec) }

  /** What each name stands for. */
  lemma BcNames()
    ensures Finds("bc1", Bc1)
    ensures Finds("bc3", Bc3)
    ensures Finds("bc4", Bc4)
    ensures Finds("bc4_snorm", Bc4Snorm)
    ensures Finds("bc5", Bc5)
    ensures Finds("bc5_snorm", Bc5Snorm)
    ensures Finds("bc6h", Bc6h)
  {
    hide Finds;
    EntryIsFound(0, "bc1", Bc1);
    EntryIsFound(1, "bc3", Bc3);
    EntryIsFound(2, "bc4", Bc4);
    EntryIsFound(3, "bc4_snorm", Bc4Snorm);
    EntryIsFound(4, "bc5", Bc5);
    EntryIsFound(5, "bc5_snorm", Bc5Snorm);
    EntryIsFound(6, "bc6h", Bc6h);
  }

  /** Likewise. */
  lemma EtcNames()
    ensures Finds("eac_r11", EacR11)
    ensures Finds("eac_rg11", EacRg11)
    ensures Finds("etc1", Etc1)
    ensures Finds("etc2_rgb", Etc2Rgb)
    ensures Finds("etc2_rgba", Etc2Rgba)
    ensures Finds("etc2_rgba_etc1", Etc2RgbaEtc1)
  {
    hide Finds;
    EntryIsFound(7, "eac_r11", EacR11);
    EntryIsFound(8, "eac_rg11", EacRg11);
    EntryIsFound(9, "etc1", Etc1);
    EntryIsFound(10, "etc2_rgb", Etc2Rgb);
    EntryIsFound(11, "etc2_rgba", Etc2Rgba);
    EntryIsFound(12, "etc2_rgba_etc1", Etc2RgbaEtc1);
  }

  predicate IsName(name: string) {
    name in {"bc1", "bc3", "bc4", "bc4_snorm", "bc5", "bc5_snorm", "bc6h", "eac_r11", "eac_rg11", "etc1", "etc2_rgb",
             "etc2_rgba", "etc2_rgba_etc1"}
  }

  lemma EntriesAreNames(i: nat)
    requires i < |SORTED_BY_STRING|
    ensures IsName(SORTED_BY_STRING[i].enumString)
  {
  }

  lemma NamesAreFound(name: string)
    requires IsName(name)
    ensures exists codec :: Finds(name, codec)
  {
    hide Finds;
    BcNames();
    EtcNames();
  }

  /** No other name is known. */
  lemma NoOtherCodecs(name: string)
    ensures Lookup(SORTED_BY_STRING, name).Some? <==> IsName(name)
  {
    hide Lookup, IsName, SORTED_BY_STRING;
    if IsName(name) {
      NamesAreFound(name);
    }
    var r := Lookup(SORTED_BY_STRING, name);
    if r.Some? {
      var i :| 0 <= i < |SORTED_BY_STRING| && SORTED_BY_STRING[i] == EnumData(r.value, name);
      EntriesAreNames(i);
    }
  }
}
