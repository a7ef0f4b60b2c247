/** The Discounts page: creating, editing and deleting catalog discounts. Every write's result
    is ignored, so each one that the store rejects is simply missing afterwards while the others
    still happen. */
module Discounts {
  import opened Common
  import opened Ids
  import opened Store
  import opened Catalog

  /** The form, already parsed; `subtype` is unset until an existing special-ID entry is edited
      or a subtype is picked. */
  datatype DiscountForm = DiscountForm(discounttype: Kind, discountdesc: string, discountrate: real,
                                       memberid: string, idno: string, idbirthday: string,
                                       disability: string, subtype: Option<Subtype>)

  /** The store writes of `handleSubmit` and `handleDelete`. */
  datatype DiscountWrite = DiscountInsert | TypeInsert | DetailInsert | RowUpdate | DiscountDelete

  // ---------------------------------------------------------------------------------------
  // Submitting the form

  /** The edit path: update the in-house row, or the Senior or PWD row picked by the subtype. */
  function EditSpec(t: Tables, form: DiscountForm, id: int, fails: set<DiscountWrite>): Tables {
    if RowUpdate in fails then t
    else if form.discounttype == InHouse then t.(inhouse := SetInHouse(t.inhouse, id, form.discountdesc, form.discountrate))
    else if form.subtype == Some(Senior) then t.(senior := SetSenior(t.senior, id, form.idno, form.idbirthday))
    else if form.subtype == Some(Pwd) then t.(pwd := SetPwd(t.pwd, id, form.idno, form.disability))
    else t
  }

  /** The create path: a `discount` row under id max + 1, then an in-house row, or a special-ID
      row (rate 0.12, the form's member) followed by a Senior or PWD row when a subtype is set. */
  function CreateSpec(t: Tables, form: DiscountForm, fails: set<DiscountWrite>): Tables {
    var did := NextId(DiscountIds(t.discount));
    var t1 := if DiscountInsert in fails then t else t.(discount := t.discount + [DiscountRow(did, form.discounttype)]);
    if form.discounttype == InHouse then
      if TypeInsert in fails then t1
      else t1.(inhouse := t1.inhouse + [InHouseRow(did, form.discountdesc, form.discountrate)])
    else
      var t2 := if TypeInsert in fails then t1
                else t1.(specialid := t1.specialid + [SpecialIdRow(did, Some(form.memberid), SPECIAL_ID_RATE, None)]);
      if DetailInsert in fails then t2
      else if form.subtype == Some(Senior) then t2.(senior := t2.senior + [SeniorRow(did, form.idno, form.idbirthday)])
      else if form.subtype == Some(Pwd) then t2.(pwd := t2.pwd + [PwdRow(did, form.idno, form.disability)])
      else t2
  }

  /** `handleSubmit`: edit when `editing` holds a (truthy) id, create otherwise. */
  function SubmitSpec(t: Tables, form: DiscountForm, editing: Option<int>, fails: set<DiscountWrite>): Tables {
    if IsSet(editing) then EditSpec(t, form, editing.value, fails) else CreateSpec(t, form, fails)
  }

  /** `handleSubmit` against the store. */
  method SubmitDiscount(db: Db, form: DiscountForm, editing: Option<int>, fails: set<DiscountWrite>)
    modifies db
    ensures db.Snapshot() == SubmitSpec(old(db.Snapshot()), form, editing, fails)
  {
    if IsSet(editing) {
      var id := editing.value;
      if form.discounttype == InHouse {
        db.UpdateInHouse(id, form.discountdesc, form.discountrate, RowUpdate !in fails);
      } else if form.subtype == Some(Senior) {
        db.UpdateSenior(id, form.idno, form.idbirthday, RowUpdate !in fails);
      } else if form.subtype == Some(Pwd) {
        db.UpdatePwd(id, form.idno, form.disability, RowUpdate !in fails);
      }
    } else {
      var discountid := NextId(DiscountIds(db.discount));
      db.InsertDiscount(DiscountRow(discountid, form.discounttype), DiscountInsert !in fails);
      if form.discounttype == InHouse {
        db.InsertInHouse(InHouseRow(discountid, form.discountdesc, form.discountrate), TypeInsert !in fails);
      } else {
        db.InsertSpecialId(SpecialIdRow(discountid, Some(form.memberid), SPECIAL_ID_RATE, None), TypeInsert !in fails);
        if form.subtype == Some(Senior) {
          db.InsertSenior(SeniorRow(discountid, form.idno, form.idbirthday), DetailInsert !in fails);
        } else if form.subtype == Some(Pwd) {
          db.InsertPwd(PwdRow(discountid, form.idno, form.disability), DetailInsert !in fails);
        }
      }
    }
  }

  // ---------------------------------------------------------------------------------------
  // Deleting

  function DeleteSpec(t: Tables, id: int, fails: set<DiscountWrite>): Tables {
    if DiscountDelete in fails then t else t.(discount := WithoutDiscount(t.discount, id))
  }

  /** `handleDelete`: delete the `discount` row only. */
  method DeleteDiscount(db: Db, id: int, fails: set<DiscountWrite>)
    modifies db
    ensures db.Snapshot() == DeleteSpec(old(db.Snapshot()), id, fails)
  {
    db.DeleteDiscount(id, DiscountDelete !in fails);
  }

  // ---------------------------------------------------------------------------------------
  // Properties

  /** A falsy `editing` (null or 0) takes the create path. */
  lemma FalsyEditingCreates(t: Tables, form: DiscountForm, editing: Option<int>, fails: set<DiscountWrite>)
    requires editing == None || editing == Some(0)
    ensures SubmitSpec(t, form, editing, fails) == CreateSpec(t, form, fails)
  {
  }

  /** Creation writes the `discount` row first and every later row under the same new id
      (max + 1, or 1); in-house creation stores the description and rate; special-ID creation
      stores rate 0.12 and the member; a Senior or PWD row is written only for subtype 'S' or
      'P'. A rejected write is missing afterwards and nothing else is affected by it. */
  lemma {:induction false} CreateWrites(t: Tables, form: DiscountForm, fails: set<DiscountWrite>)
    ensures var t' := CreateSpec(t, form, fails);
            var did := NextId(DiscountIds(t.discount));
      && did !in DiscountIds(t.discount) && (|t.discount| == 0 ==> did == 1)
      && t'.discount == t.discount + (if DiscountInsert in fails then [] else [DiscountRow(did, form.discounttype)])
      && (form.discounttype == InHouse ==>
            && t'.inhouse == t.inhouse + (if TypeInsert in fails then [] else [InHouseRow(did, form.discountdesc, form.discountrate)])
            && t'.specialid == t.specialid && t'.senior == t.senior && t'.pwd == t.pwd)
      && (form.discounttype == SpecialId ==>
            && t'.inhouse == t.inhouse
            && t'.specialid == t.specialid +
                 (if TypeInsert in fails then [] else [SpecialIdRow(did, Some(form.memberid), 0.12, None)])
            && t'.senior == t.senior +
                 (if DetailInsert !in fails && form.subtype == Some(Senior)
                  then [SeniorRow(did, form.idno, form.idbirthday)] else [])
            && t'.pwd == t.pwd +
                 (if DetailInsert !in fails && form.subtype == Some(Pwd)
                  then [PwdRow(did, form.idno, form.disability)] else []))
      && t' == t.(discount := t'.discount, inhouse := t'.inhouse, specialid := t'.specialid,
                  senior := t'.senior, pwd := t'.pwd)
  {
    assert t.inhouse + [] == t.inhouse;
    assert t.specialid + [] == t.specialid;
    assert t.senior + [] == t.senior;
    assert t.pwd + [] == t.pwd;
    assert t.discount + [] == t.discount;
  }

  /** An in-house discount created with every write accepted shows up in the reloaded catalog,
      after the in-house entries already there, under its new id with its description and rate. */
  lemma CreatedInHouseListed(t: Tables, form: DiscountForm)
    requires form.discounttype == InHouse
    ensures var t' := CreateSpec(t, form, {});
      && Merge(t')[|t.inhouse|] == InHouseEntry(InHouseRow(NextId(DiscountIds(t.discount)), form.discountdesc, form.discountrate))
      && Merge(t')[|t.inhouse|].Type() == InHouse
  {
    CreateWrites(t, form, {});
  }

  /** A special-ID discount created with every write accepted shows up in the reloaded catalog
      under its new id with rate 0.12 and the form's member; it also shows the form's subtype and
      ID number, provided no leftover Senior or PWD row already carries that id. */
  lemma {:induction false} CreatedSpecialIdListed(t: Tables, form: DiscountForm)
    requires form.discounttype == SpecialId
    ensures var t' := CreateSpec(t, form, {});
            var did := NextId(DiscountIds(t.discount));
            var e := Merge(t')[|t.inhouse| + |t.specialid|];
      && e.special == SpecialIdRow(did, Some(form.memberid), 0.12, None)
      && e.Type() == SpecialId && e.Id() == did && e.Rate() == 0.12
      && ((forall i :: 0 <= i < |t.senior| ==> t.senior[i].discountid != did) &&
          (forall i :: 0 <= i < |t.pwd| ==> t.pwd[i].discountid != did) ==>
            e.subtype == form.subtype && (form.subtype.Some? ==> e.idno == form.idno))
  {
    var t' := CreateSpec(t, form, {});
    var did := NextId(DiscountIds(t.discount));
    CreateWrites(t, form, {});
    var sid := SpecialIdRow(did, Some(form.memberid), 0.12, None);
    assert t'.specialid[|t.specialid|] == sid;
    assert t'.inhouse == t.inhouse;
    assert Merge(t')[|t.inhouse| + |t.specialid|] == WithDetails(sid, t'.senior, t'.pwd);
    if (forall i :: 0 <= i < |t.senior| ==> t.senior[i].discountid != did) &&
       (forall i :: 0 <= i < |t.pwd| ==> t.pwd[i].discountid != did) {
      NewDetailShown(sid, t.senior, t.pwd, form);
    }
  }

  /** The Senior or PWD row written for a new id is the one the merge picks up. */
  lemma NewDetailShown(sid: SpecialIdRow, senior: seq<SeniorRow>, pwd: seq<PwdRow>, form: DiscountForm)
    requires forall i :: 0 <= i < |senior| ==> senior[i].discountid != sid.discountid
    requires forall i :: 0 <= i < |pwd| ==> pwd[i].discountid != sid.discountid
    ensures var e := WithDetails(sid,
                                 senior + (if form.subtype == Some(Senior) then [SeniorRow(sid.discountid, form.idno, form.idbirthday)] else []),
                                 pwd + (if form.subtype == Some(Pwd) then [PwdRow(sid.discountid, form.idno, form.disability)] else []));
      e.subtype == form.subtype && (form.subtype.Some? ==> e.idno == form.idno)
  {
    var s' := senior + (if form.subtype == Some(Senior) then [SeniorRow(sid.discountid, form.idno, form.idbirthday)] else []);
    var p' := pwd + (if form.subtype == Some(Pwd) then [PwdRow(sid.discountid, form.idno, form.disability)] else []);
    DetailCases(sid, s', p');
    match form.subtype {
      case Some(Senior) =>
        assert s'[|senior|].discountid == sid.discountid;
        assert p' == pwd;
      case Some(Pwd) =>
        assert p'[|pwd|].discountid == sid.discountid;
        assert s' == senior;
      case None =>
        assert s' == senior && p' == pwd;
    }
  }

  /** Editing changes nothing but the row with the edited id in the one table the type and
      subtype select: an in-house edit only its description and rate, a Senior edit only its
      ID number and birthday, a PWD edit only its ID number and disability. */
  lemma EditChangesOnlyTarget(t: Tables, form: DiscountForm, id: int, fails: set<DiscountWrite>)
    requires RowUpdate !in fails
    ensures var t' := EditSpec(t, form, id, fails);
      && t'.discount == t.discount && t'.specialid == t.specialid
      && (form.discounttype == InHouse ==>
            && t' == t.(inhouse := t'.inhouse) && |t'.inhouse| == |t.inhouse|
            && forall i :: 0 <= i < |t.inhouse| ==>
                 t'.inhouse[i] == if t.inhouse[i].discountid == id
                                  then t.inhouse[i].(discountdesc := form.discountdesc, discountrate := form.discountrate)
                                  else t.inhouse[i])
      && (form.discounttype == SpecialId && form.subtype == Some(Senior) ==>
            && t' == t.(senior := t'.senior) && |t'.senior| == |t.senior|
            && forall i :: 0 <= i < |t.senior| ==>
                 t'.senior[i] == if t.senior[i].discountid == id
                                 then t.senior[i].(idno := form.idno, idbirthday := form.idbirthday)
                                 else t.senior[i])
      && (form.discounttype == SpecialId && form.subtype == Some(Pwd) ==>
            && t' == t.(pwd := t'.pwd) && |t'.pwd| == |t.pwd|
            && forall i :: 0 <= i < |t.pwd| ==>
                 t'.pwd[i] == if t.pwd[i].discountid == id
                              then t.pwd[i].(idno := form.idno, disability := form.disability)
                              else t.pwd[i])
      && (form.discounttype == SpecialId && form.subtype == None ==> t' == t)
  {
  }

  /** Delete removes every `discount` row with that id and keeps every other row; the other four
      discount tables are untouched, so the catalog, which is built from them, still lists the
      deleted discount. */
  lemma DeleteRemovesOnlyDiscountRow(t: Tables, id: int)
    ensures var t' := DeleteSpec(t, id, {});
      && (forall d :: d in t'.discount <==> d in t.discount && d.discountid != id)
      && t' == t.(discount := t'.discount)
      && Merge(t') == Merge(t)
  {
  }
}
