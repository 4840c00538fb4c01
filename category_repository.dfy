/** The category queries of `CategoryRepository` over the `categories` table.
    A category is visible to a user when the user owns it or it is a default
    category. `IgnoreCase` compares upper-cased names. */
module CategoryRepository {
  import opened Domain
  import opened Ledger

  /** Upper-casing of one character; only the ASCII letters change. */
  function UpperChar(c: char): char {
    if 'a' <= c <= 'z' then (c as int - 'a' as int + 'A' as int) as char else c
  }

  function Upper(s: string): (r: string)
    ensures |r| == |s|
    ensures forall i :: 0 <= i < |s| ==> r[i] == UpperChar(s[i])
  {
    if s == [] then [] else [UpperChar(s[0])] + Upper(s[1..])
  }

  /** `UPPER(a) = UPPER(b)`. */
  predicate EqualsIgnoreCase(a: string, b: string) {
    Upper(a) == Upper(b)
  }

  predicate VisibleTo(c: Category, userId: int) {
    c.userId == Some(userId) || c.isDefault
  }

  function FindById(cats: seq<Category>, id: int): (r: Option<Category>)
    ensures r.Some? ==> r.value in cats && r.value.id == Some(id)
    ensures r.None? ==> forall i :: 0 <= i < |cats| ==> cats[i].id != Some(id)
  {
    First(cats, (c: Category) => c.id == Some(id))
  }

  /** Plain owner equality: a default category owned by nobody never matches. */
  function FindByUserId(cats: seq<Category>, userId: int): (r: seq<Category>)
    ensures forall c :: c in r <==> c in cats && c.userId == Some(userId)
  {
    var p := (c: Category) => c.userId == Some(userId);
    FilterMembers(cats, p);
    Filter(cats, p)
  }

  function FindByUserIdAndNameIgnoreCase(cats: seq<Category>, userId: int, name: string): (r: Option<Category>)
    ensures r.Some? ==> r.value in cats && r.value.userId == Some(userId) && EqualsIgnoreCase(r.value.name, name)
    ensures r.None? ==> forall i :: 0 <= i < |cats| ==>
              !(cats[i].userId == Some(userId) && EqualsIgnoreCase(cats[i].name, name))
  {
    First(cats, (c: Category) => c.userId == Some(userId) && EqualsIgnoreCase(c.name, name))
  }

  function FindAllForUser(cats: seq<Category>, userId: int): (r: seq<Category>)
    ensures forall c :: c in r <==> c in cats && VisibleTo(c, userId)
  {
    var p := (c: Category) => VisibleTo(c, userId);
    FilterMembers(cats, p);
    Filter(cats, p)
  }

  function FindAllForUserAndType(cats: seq<Category>, userId: int, kind: string): (r: seq<Category>)
    ensures forall c :: c in r <==> c in cats && VisibleTo(c, userId) && c.kind == kind
  {
    var p := (c: Category) => VisibleTo(c, userId) && c.kind == kind;
    FilterMembers(cats, p);
    Filter(cats, p)
  }

  function FindByIdAndVisibleToUser(cats: seq<Category>, id: int, userId: int): (r: Option<Category>)
    ensures r.Some? ==> r.value in cats && r.value.id == Some(id) && VisibleTo(r.value, userId)
    ensures r.None? ==> forall i :: 0 <= i < |cats| ==> !(cats[i].id == Some(id) && VisibleTo(cats[i], userId))
  {
    First(cats, (c: Category) => c.id == Some(id) && VisibleTo(c, userId))
  }

  /** The typed query is the visibility query restricted to the type, in the
      same order; in particular it never returns more. */
  lemma FindAllForUserAndTypeRestricts(cats: seq<Category>, userId: int, kind: string)
    ensures FindAllForUserAndType(cats, userId, kind)
         == Filter(FindAllForUser(cats, userId), (c: Category) => c.kind == kind)
  {
    var visible := (c: Category) => VisibleTo(c, userId);
    var typed := (c: Category) => c.kind == kind;
    FilterFilter(cats, visible, typed);
    FilterExtensional(cats, (c: Category) => VisibleTo(c, userId) && c.kind == kind, Both(visible, typed));
  }

  /** When the table's ids are unique, the visible lookup by id agrees with the
      plain lookup by id exactly when that category is visible. */
  lemma {:induction false} FindByIdAndVisibleToUserAgrees(cats: seq<Category>, id: int, userId: int)
    requires forall i, j :: 0 <= i < j < |cats| ==> cats[i].id != cats[j].id
    ensures FindByIdAndVisibleToUser(cats, id, userId)
         == (match FindById(cats, id)
             case Some(c) => if VisibleTo(c, userId) then Some(c) else None
             case None => None)
  {
    if cats != [] && cats[0].id != Some(id) {
      FindByIdAndVisibleToUserAgrees(cats[1..], id, userId);
    }
  }
}
