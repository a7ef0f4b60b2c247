/** The unified discount catalog (`fetchDiscounts`, written identically in Bills.jsx and
    Discounts.jsx): the in-house rows tagged 'I', then one 'S' entry per special-ID row carrying
    the details of its Senior or PWD row. */
module Catalog {
  import opened Common
  import opened Store

  /** One catalog entry. `InHouseEntry` is `{ ...inhouse, type: 'I', subtype: null }`;
      `SpecialEntry` is `{ ...specialid, type: 'S', subtype, idno, idbirthday, disability }`. */
  datatype Entry =
    | InHouseEntry(inhouse: InHouseRow)
    | SpecialEntry(special: SpecialIdRow, subtype: Option<Subtype>, idno: string, idbirthday: string,
                   disability: string)
  {
    function Id(): int {
      if InHouseEntry? then inhouse.discountid else special.discountid
    }

    function Rate(): real {
      if InHouseEntry? then inhouse.discountrate else special.discountrate
    }

    /** The `type` tag. */
    function Type(): Kind {
      if InHouseEntry? then InHouse else SpecialId
    }
  }

  /** The first row whose key is `id`, as `rows.find(r => key(r) === id)`. */
  function FindBy<T>(rows: seq<T>, key: T -> int, id: int): (r: Option<T>)
    ensures r.None? <==> forall i :: 0 <= i < |rows| ==> key(rows[i]) != id
    ensures r.Some? ==> exists i :: 0 <= i < |rows| && rows[i] == r.value && key(rows[i]) == id &&
                          forall j :: 0 <= j < i ==> key(rows[j]) != id
  {
    if |rows| == 0 then None
    else if key(rows[0]) == id then Some(rows[0])
    else
      var r := FindBy(rows[1..], key, id);
      assert forall i :: 1 <= i < |rows| ==> rows[i] == rows[1..][i - 1];
      if r.Some? then
        ghost var k :| 0 <= k < |rows[1..]| && rows[1..][k] == r.value && key(rows[1..][k]) == id &&
                       forall j :: 0 <= j < k ==> key(rows[1..][j]) != id;
        assert rows[k + 1] == r.value;
        r
      else r
  }

  function SeniorId(row: SeniorRow): int { row.discountid }

  function PwdId(row: PwdRow): int { row.discountid }

  /** A special-ID row merged with the first Senior and the first PWD row of the same id. */
  function WithDetails(sid: SpecialIdRow, senior: seq<SeniorRow>, pwd: seq<PwdRow>): Entry {
    var s := FindBy(senior, SeniorId, sid.discountid);
    var p := FindBy(pwd, PwdId, sid.discountid);
    SpecialEntry(sid,
                 if s.Some? then Some(Senior) else if p.Some? then Some(Pwd) else None,
                 if s.Some? then s.value.idno else if p.Some? then p.value.idno else "",
                 if s.Some? then s.value.idbirthday else "",
                 if p.Some? then p.value.disability else "")
  }

  function InHouseEntries(rows: seq<InHouseRow>): (r: seq<Entry>)
    ensures |r| == |rows|
    ensures forall i :: 0 <= i < |rows| ==> r[i] == InHouseEntry(rows[i])
  {
    if |rows| == 0 then [] else [InHouseEntry(rows[0])] + InHouseEntries(rows[1..])
  }

  function SpecialEntries(rows: seq<SpecialIdRow>, senior: seq<SeniorRow>, pwd: seq<PwdRow>): (r: seq<Entry>)
    ensures |r| == |rows|
    ensures forall i :: 0 <= i < |rows| ==> r[i] == WithDetails(rows[i], senior, pwd)
  {
    if |rows| == 0 then [] else [WithDetails(rows[0], senior, pwd)] + SpecialEntries(rows[1..], senior, pwd)
  }

  /** `allDiscounts`: every in-house row gives an 'I' entry with null subtype, in table order, and
      then every special-ID row gives exactly one 'S' entry; so the catalog has one entry per row
      of the two tables. */
  function Merge(t: Tables): (r: seq<Entry>)
    ensures |r| == |t.inhouse| + |t.specialid|
    ensures forall i :: 0 <= i < |t.inhouse| ==>
              r[i].InHouseEntry? && r[i].inhouse == t.inhouse[i] && r[i].Type() == InHouse
    ensures forall j :: 0 <= j < |t.specialid| ==>
              r[|t.inhouse| + j].SpecialEntry? && r[|t.inhouse| + j].special == t.specialid[j] &&
              r[|t.inhouse| + j].Type() == SpecialId
  {
    InHouseEntries(t.inhouse) + SpecialEntries(t.specialid, t.senior, t.pwd)
  }

  /** `discounts.filter(d => d.type === k)`. */
  function OfType(c: seq<Entry>, k: Kind): (r: seq<Entry>)
    ensures forall e :: e in r <==> e in c && e.Type() == k
  {
    if |c| == 0 then [] else (if c[0].Type() == k then [c[0]] else []) + OfType(c[1..], k)
  }

  /** `discounts.find(d => d.discountid === id)`. */
  function FindEntry(c: seq<Entry>, id: int): (r: Option<Entry>)
    ensures r.None? <==> forall i :: 0 <= i < |c| ==> c[i].Id() != id
    ensures r.Some? ==> r.value in c && r.value.Id() == id
    ensures r.Some? ==> exists i :: 0 <= i < |c| && c[i] == r.value && forall j :: 0 <= j < i ==> c[j].Id() != id
  {
    if |c| == 0 then None
    else if c[0].Id() == id then Some(c[0])
    else
      var r := FindEntry(c[1..], id);
      assert forall i :: 1 <= i < |c| ==> c[i] == c[1..][i - 1];
      r
  }

  // ---------------------------------------------------------------------------------------
  // Properties of the merge

  /** How a special-ID entry's subtype and detail fields follow from its Senior and PWD rows,
      each taken from the first row with the entry's id: a Senior row wins even when a PWD row
      exists; a PWD row alone gives 'P'; neither gives a null subtype and an empty `idno`. The
      disability comes from the first PWD row whenever there is one, even when a Senior row
      wins. */
  lemma DetailCases(sid: SpecialIdRow, senior: seq<SeniorRow>, pwd: seq<PwdRow>)
    ensures var e := WithDetails(sid, senior, pwd);
      && e.Type() == SpecialId && e.Id() == sid.discountid && e.Rate() == sid.discountrate
      && ((exists i :: 0 <= i < |senior| && senior[i].discountid == sid.discountid) ==>
            e.subtype == Some(Senior) &&
            exists i :: 0 <= i < |senior| && senior[i].discountid == sid.discountid &&
                        (forall j :: 0 <= j < i ==> senior[j].discountid != sid.discountid) &&
                        e.idno == senior[i].idno && e.idbirthday == senior[i].idbirthday)
      && ((exists i :: 0 <= i < |pwd| && pwd[i].discountid == sid.discountid) ==>
            exists i :: 0 <= i < |pwd| && pwd[i].discountid == sid.discountid &&
                        (forall j :: 0 <= j < i ==> pwd[j].discountid != sid.discountid) &&
                        e.disability == pwd[i].disability)
      && ((forall i :: 0 <= i < |pwd| ==> pwd[i].discountid != sid.discountid) ==> e.disability == "")
      && ((forall i :: 0 <= i < |senior| ==> senior[i].discountid != sid.discountid) &&
          (exists i :: 0 <= i < |pwd| && pwd[i].discountid == sid.discountid) ==>
            e.subtype == Some(Pwd) && e.idbirthday == "" &&
            exists i :: 0 <= i < |pwd| && pwd[i].discountid == sid.discountid &&
                        (forall j :: 0 <= j < i ==> pwd[j].discountid != sid.discountid) &&
                        e.idno == pwd[i].idno && e.disability == pwd[i].disability)
      && ((forall i :: 0 <= i < |senior| ==> senior[i].discountid != sid.discountid) &&
          (forall i :: 0 <= i < |pwd| ==> pwd[i].discountid != sid.discountid) ==>
            e.subtype == None && e.idno == "" && e.idbirthday == "" && e.disability == "")
  {
    var s := FindBy(senior, SeniorId, sid.discountid);
    var p := FindBy(pwd, PwdId, sid.discountid);
    if s.Some? {
      var k :| 0 <= k < |senior| && senior[k] == s.value && senior[k].discountid == sid.discountid &&
               forall j :: 0 <= j < k ==> senior[j].discountid != sid.discountid;
    }
    if p.Some? {
      var k :| 0 <= k < |pwd| && pwd[k] == p.value && pwd[k].discountid == sid.discountid &&
               forall j :: 0 <= j < k ==> pwd[j].discountid != sid.discountid;
    }
  }

  lemma {:induction false} OfTypeAppend(a: seq<Entry>, b: seq<Entry>, k: Kind)
    ensures OfType(a + b, k) == OfType(a, k) + OfType(b, k)
  {
    if |a| == 0 {
      assert a + b == b;
    } else {
      assert (a + b)[0] == a[0];
      assert (a + b)[1..] == a[1..] + b;
      OfTypeAppend(a[1..], b, k);
    }
  }

  lemma {:induction false} OfTypeInHouse(rows: seq<InHouseRow>)
    ensures OfType(InHouseEntries(rows), InHouse) == InHouseEntries(rows)
    ensures OfType(InHouseEntries(rows), SpecialId) == []
  {
    if |rows| > 0 {
      var c := InHouseEntries(rows);
      assert c[1..] == InHouseEntries(rows[1..]);
      OfTypeInHouse(rows[1..]);
    }
  }

  lemma {:induction false} OfTypeSpecial(rows: seq<SpecialIdRow>, senior: seq<SeniorRow>, pwd: seq<PwdRow>)
    ensures OfType(SpecialEntries(rows, senior, pwd), SpecialId) == SpecialEntries(rows, senior, pwd)
    ensures OfType(SpecialEntries(rows, senior, pwd), InHouse) == []
  {
    if |rows| > 0 {
      var c := SpecialEntries(rows, senior, pwd);
      assert c[1..] == SpecialEntries(rows[1..], senior, pwd);
      OfTypeSpecial(rows[1..], senior, pwd);
    }
  }

  /** The in-house list and the special-ID list of the Discounts page split the catalog by `type`:
      the first is exactly the in-house entries, the second exactly the special-ID entries. */
  lemma {:induction false} TypeFiltersPartitionCatalog(t: Tables)
    ensures OfType(Merge(t), InHouse) == InHouseEntries(t.inhouse)
    ensures OfType(Merge(t), SpecialId) == SpecialEntries(t.specialid, t.senior, t.pwd)
    ensures |OfType(Merge(t), InHouse)| + |OfType(Merge(t), SpecialId)| == |Merge(t)|
  {
    var a := InHouseEntries(t.inhouse);
    var b := SpecialEntries(t.specialid, t.senior, t.pwd);
    OfTypeAppend(a, b, InHouse);
    OfTypeAppend(a, b, SpecialId);
    OfTypeInHouse(t.inhouse);
    OfTypeSpecial(t.specialid, t.senior, t.pwd);
    assert a + [] == a;
    assert [] + b == b;
  }

  /** For any list, the two type filters together keep every entry exactly once. */
  lemma {:induction false} TypeFiltersCover(c: seq<Entry>)
    ensures |OfType(c, InHouse)| + |OfType(c, SpecialId)| == |c|
  {
    if |c| > 0 {
      TypeFiltersCover(c[1..]);
    }
  }
}
