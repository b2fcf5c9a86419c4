/**
 * What `listPassports` hands back: whose passports, in which order, and how
 * the `page` and `limit` query values cut the listing into pages. The order
 * lemmas are about the intended newest-first listing; the last two compare it
 * with the listing as written, whose sort key is missing from every document.
 */
module PassportListing {
  import opened Wrappers
  import opened Http
  import opened Roles
  import opened Passports
  import opened PassportController
  import Store
  import Dates
  import AuthMiddleware

  /** The matching ids of a listing, newest first. */
  function Listed(user: User, reg: Registry): seq<nat> {
    Store.Newest(reg.docs, ListFilter(user), reg.next)
  }

  /** A Dentist sees only their own passports, and all of them are counted. */
  lemma DentistSeesOwnOnly(env: PassportEnv, user: User, pageQ: Option<int>, limitQ: Option<int>, reg: Registry)
    requires user.role == Dentist && RegistryValid(reg)
    ensures List(env, user, pageQ, limitQ, reg).Done? ==>
      && (forall i | 0 <= i < |List(env, user, pageQ, limitQ, reg).value.page.passports| ::
            List(env, user, pageQ, limitQ, reg).value.page.passports[i].passport.dentistId == user.id)
      && List(env, user, pageQ, limitQ, reg).value.page.total
         == |set id | id in reg.docs && reg.docs[id].dentistId == user.id|
  {
    var r := List(env, user, pageQ, limitQ, reg);
    if r.Done? {
      var ids := Listed(user, reg);
      var skip := (PageNumber(pageQ) - 1) * PageSize(limitQ);
      var ps := r.value.page.passports;
      Store.NewestSound(reg.docs, ListFilter(user), reg.next);
      forall i | 0 <= i < |ps| ensures ps[i].passport.dentistId == user.id {
        assert ps[i].passport == reg.docs[ids[skip + i]];
        assert ListFilter(user)(reg.docs[ids[skip + i]]);
      }
      Store.NewestCount(reg.docs, ListFilter(user), reg.next);
      assert Store.Matching(reg.docs, ListFilter(user), reg.next)
          == set id | id in reg.docs && reg.docs[id].dentistId == user.id;
    }
  }

  /** An Admin's listing counts every stored passport. */
  lemma AdminSeesAll(env: PassportEnv, user: User, pageQ: Option<int>, limitQ: Option<int>, reg: Registry)
    requires user.role == Admin && RegistryValid(reg)
    ensures List(env, user, pageQ, limitQ, reg).Done? ==> List(env, user, pageQ, limitQ, reg).value.page.total == |reg.docs|
  {
    Store.NewestCount(reg.docs, ListFilter(user), reg.next);
    assert Store.Matching(reg.docs, ListFilter(user), reg.next) == reg.docs.Keys;
  }

  /** Passports come newest first: creation stamps strictly decrease along the page. */
  lemma NewestFirst(env: PassportEnv, user: User, pageQ: Option<int>, limitQ: Option<int>, reg: Registry)
    requires RegistryValid(reg)
    ensures List(env, user, pageQ, limitQ, reg).Done? ==>
      forall i, j | 0 <= i < j < |List(env, user, pageQ, limitQ, reg).value.page.passports| ::
        List(env, user, pageQ, limitQ, reg).value.page.passports[i].passport.createdAt
        > List(env, user, pageQ, limitQ, reg).value.page.passports[j].passport.createdAt
  {
    var r := List(env, user, pageQ, limitQ, reg);
    if r.Done? {
      Store.NewestSorted(reg.docs, ListFilter(user), reg.next);
      WindowDescends(r.value.page.passports, Listed(user, reg), (PageNumber(pageQ) - 1) * PageSize(limitQ),
                     PageSize(limitQ), reg, env.today);
    }
  }

  /** A window of a strictly descending id listing shows strictly decreasing creation stamps. */
  lemma WindowDescends(views: seq<View>, ids: seq<nat>, skip: nat, limit: int, reg: Registry, today: Dates.Date)
    requires RegistryValid(reg) && IsWindow(views, ids, skip, limit, reg, today)
    requires forall i, j | 0 <= i < j < |ids| :: ids[i] > ids[j]
    ensures forall i, j | 0 <= i < j < |views| :: views[i].passport.createdAt > views[j].passport.createdAt
  {
    forall i, j | 0 <= i < j < |views| ensures views[i].passport.createdAt > views[j].passport.createdAt {
      assert views[i].passport == reg.docs[ids[skip + i]];
      assert views[j].passport == reg.docs[ids[skip + j]];
      StampIsId(reg, ids[skip + i]);
      StampIsId(reg, ids[skip + j]);
    }
  }

  lemma StampIsId(reg: Registry, id: nat)
    requires RegistryValid(reg) && id in reg.docs
    ensures reg.docs[id].createdAt == id
  {
  }

  /** For a positive size and page number, page `page` starts before the end exactly when it is at most the page count. */
  lemma PageStartsInside(page: int, limit: int, total: nat)
    requires limit > 0 && page >= 1
    ensures (page - 1) * limit < total <==> page <= CeilDiv(total, limit)
  {
    var pages := CeilDiv(total, limit);
    if page <= pages {
      MulMono(page - 1, pages - 1, limit);
    } else {
      MulMono(pages, page - 1, limit);
    }
  }

  lemma MulMono(a: int, b: int, c: nat)
    requires a <= b
    ensures a * c <= b * c
  {
    var d: nat := b - a;
    assert b * c == a * c + d * c;
  }

  /** With a positive page size and page number, a page has items exactly when its number is at most the page count. */
  lemma PageNonEmptyIff(env: PassportEnv, user: User, pageQ: Option<int>, limitQ: Option<int>, reg: Registry)
    requires PageSize(limitQ) > 0 && PageNumber(pageQ) >= 1
    ensures var r := List(env, user, pageQ, limitQ, reg);
      && r.Done?
      && (|r.value.page.passports| > 0 <==> r.value.page.current <= r.value.page.pages)
  {
    var page := PageNumber(pageQ);
    var limit := PageSize(limitQ);
    MulMono(0, page - 1, limit);
    PageStartsInside(page, limit, |Listed(user, reg)|);
  }

  /** Without query values the first ten passports are shown and the page count is the ceiling of total / 10. */
  lemma DefaultPage(env: PassportEnv, user: User, reg: Registry)
    ensures var r := List(env, user, None, None, reg);
      var ids := Listed(user, reg);
      && r.Done?
      && r.value.page.current == 1
      && |r.value.page.passports| == Min(10, |ids|)
      && (forall i | 0 <= i < |r.value.page.passports| :: r.value.page.passports[i].id == ids[i])
      && (r.value.page.pages - 1) * 10 < |ids| <= r.value.page.pages * 10
  {
    var r := List(env, user, None, None, reg);
    var ids := Listed(user, reg);
    var skip := (PageNumber(None) - 1) * PageSize(None);
    assert skip == 0;
    var views := r.value.page.passports;
    forall i | 0 <= i < |views|
      ensures views[i].id == ids[i]
    {
      assert views[i].id == ids[skip + i];
    }
  }

  /** Eleven visible passports under the defaults make two pages, the first holding ten. */
  lemma ElevenMakeTwoPages(env: PassportEnv, user: User, reg: Registry)
    requires |Listed(user, reg)| == 11
    ensures var r := List(env, user, None, None, reg);
      r.Done? && r.value.page.pages == 2 && |r.value.page.passports| == 10 && r.value.page.total == 11
  {
    DefaultPage(env, user, reg);
  }

  /** A negative `limit` on the first page returns as many passports as its absolute value, and the page count goes non-positive. */
  lemma NegativeLimitOnFirstPage(env: PassportEnv, user: User, pageQ: Option<int>, n: int, reg: Registry)
    requires PageNumber(pageQ) == 1 && n < 0
    ensures var r := List(env, user, pageQ, Some(n), reg);
      && r.Done?
      && |r.value.page.passports| == Min(-n, |Listed(user, reg)|)
      && r.value.page.pages <= 0
  {
  }

  /** A page number below one with a positive size makes the query fail with 500. */
  lemma NegativeSkipFails(env: PassportEnv, user: User, pageQ: Option<int>, limitQ: Option<int>, reg: Registry)
    requires PageNumber(pageQ) < 1 && PageSize(limitQ) > 0
    ensures List(env, user, pageQ, limitQ, reg).Status() == 500
  {
    assert (PageNumber(pageQ) - 1) * PageSize(limitQ) < 0 by {
      assert (1 - PageNumber(pageQ)) * PageSize(limitQ) > 0;
    }
  }

  /**
   * Whatever order the store returns tied documents in, the listing as
   * written reports the same counts as the intended one and shows the same
   * number of passports, all of them visible to the caller.
   */
  lemma AsWrittenDiffersOnlyInOrder(env: PassportEnv, user: User, pageQ: Option<int>, limitQ: Option<int>,
                                    reg: Registry, scan: nat -> int)
    ensures var a := ListAsWritten(env, user, pageQ, limitQ, reg, scan);
      var r := List(env, user, pageQ, limitQ, reg);
      && (a.Done? <==> r.Done?)
      && (a.Done? ==>
            && a.value.page.current == r.value.page.current
            && a.value.page.total == r.value.page.total
            && a.value.page.pages == r.value.page.pages
            && |a.value.page.passports| == |r.value.page.passports|
            && forall i | 0 <= i < |a.value.page.passports| :: a.value.page.passports[i].id in Listed(user, reg))
  {
    var a := ListAsWritten(env, user, pageQ, limitQ, reg, scan);
    if a.Done? {
      var ids := Store.Arrange(Listed(user, reg), scan);
      var skip := (PageNumber(pageQ) - 1) * PageSize(limitQ);
      Store.ArrangeMembers(Listed(user, reg), scan);
      forall i | 0 <= i < |a.value.page.passports| ensures a.value.page.passports[i].id in Listed(user, reg) {
        assert a.value.page.passports[i].id == ids[skip + i];
      }
    }
  }

  /**
   * Two passports created one after the other, listed by an Admin: when the
   * store returns tied documents in insertion order, the listing as written
   * shows the older one first, while the intended listing shows the newer one first.
   */
  lemma AsWrittenCanListOldestFirst(env: PassportEnv)
    ensures var details := ImplantDetails("Brand", "L1", Dates.Date(2024, 1, 10), "36", 4.0, 10.0, None);
      var older := Passport("Anna", Dates.Date(1980, 5, 1), TitanioStandard, details, Active, 7, None, None, 0);
      var newer := Passport("Bruno", Dates.Date(1975, 3, 2), Ceramica, details, Active, 7, None, None, 1);
      var reg := Store.Collection(map[0 := older, 1 := newer], 2);
      var admin := AuthMiddleware.User(3, "admin@example.com", "h", Admin);
      var a := ListAsWritten(env, admin, None, None, reg, (id: nat) => id as int);
      var r := List(env, admin, None, None, reg);
      && RegistryValid(reg)
      && a.Done? && |a.value.page.passports| == 2
      && a.value.page.passports[0].passport.createdAt < a.value.page.passports[1].passport.createdAt
      && r.Done? && |r.value.page.passports| == 2
      && r.value.page.passports[0].passport.createdAt > r.value.page.passports[1].passport.createdAt
  {
    var details := ImplantDetails("Brand", "L1", Dates.Date(2024, 1, 10), "36", 4.0, 10.0, None);
    var older := Passport("Anna", Dates.Date(1980, 5, 1), TitanioStandard, details, Active, 7, None, None, 0);
    var newer := Passport("Bruno", Dates.Date(1975, 3, 2), Ceramica, details, Active, 7, None, None, 1);
    var reg := Store.Collection(map[0 := older, 1 := newer], 2);
    var admin := AuthMiddleware.User(3, "admin@example.com", "h", Admin);
    var scan := (id: nat) => id as int;
    var f := ListFilter(admin);
    assert Store.Newest(reg.docs, f, 0) == [];
    assert Store.Newest(reg.docs, f, 1) == [0];
    assert Store.Newest(reg.docs, f, 2) == [1, 0];
    assert Store.Arrange([0], scan) == [0];
    assert Store.Arrange([1, 0], scan) == Store.Place(1, [0], scan) == [0, 1];
  }
}
