/**
 * src/components/Skills.tsx: the skills section. Skills are split into one list per
 * category by order-preserving filters, the lists are shown in a fixed order with the
 * empty ones left out, and each skill's level is drawn as a row of five dots.
 */
module Skills {

  /** The four-valued `category` of a skill (src/types/index.ts). */
  datatype Category = Frontend | Backend | Tools | Other

  /** A skill as the section reads it; the icon is not modelled. */
  datatype Skill = Skill(name: string, level: int, category: Category)

  /** The key of `categories`, shown as the group's heading. */
  function CategoryKey(c: Category): string {
    match c
    case Frontend => "frontend"
    case Backend => "backend"
    case Tools => "tools"
    case Other => "other"
  }

  /** Position of a category among the keys of `categories`, which is the order `Object.entries` gives them in. */
  function Rank(c: Category): nat {
    match c
    case Frontend => 0
    case Backend => 1
    case Tools => 2
    case Other => 3
  }

  /** `skills.filter(skill => skill.category === c)`. */
  function InCategory(skills: seq<Skill>, c: Category): (r: seq<Skill>)
    ensures |r| <= |skills|
  {
    if skills == [] then []
    else (if skills[0].category == c then [skills[0]] else []) + InCategory(skills[1..], c)
  }

  /** r[k] is s[idx[k]] for every k. */
  ghost predicate Picks(r: seq<Skill>, s: seq<Skill>, idx: seq<nat>) {
    |idx| == |r| && forall k | 0 <= k < |idx| :: idx[k] < |s| && r[k] == s[idx[k]]
  }

  ghost predicate Increasing(idx: seq<nat>) {
    forall k, l | 0 <= k < l < |idx| :: idx[k] < idx[l]
  }

  /** The positions in idx are exactly those of the skills of s in category c. */
  ghost predicate Covers(s: seq<Skill>, c: Category, idx: seq<nat>) {
    forall i | 0 <= i < |s| :: s[i].category == c <==> i in idx
  }

  /**
   * idx picks r out of s: it is strictly increasing, r[k] is s[idx[k]], and the indices it
   * picks are exactly those of the skills in category c.
   */
  ghost predicate SelectsCategory(r: seq<Skill>, s: seq<Skill>, c: Category, idx: seq<nat>) {
    Picks(r, s, idx) && Increasing(idx) && Covers(s, c, idx)
  }

  /** Every index in idx, one further on. */
  function Shift(idx: seq<nat>): (r: seq<nat>)
    ensures |r| == |idx| && forall k | 0 <= k < |idx| :: r[k] == idx[k] + 1
  {
    seq(|idx|, k requires 0 <= k < |idx| => idx[k] + 1)
  }

  /** Prepending x to t: the picked positions of t move one on, and position 0 joins them when x is in category c. */
  function Extended(x: Skill, c: Category, idx: seq<nat>): seq<nat> {
    if x.category == c then [0] + Shift(idx) else Shift(idx)
  }

  /** The extended indices are as many as the category-c skills of [x] + t and pick them in order. */
  lemma ExtendedPicks(x: Skill, t: seq<Skill>, c: Category, idx: seq<nat>)
    requires Picks(InCategory(t, c), t, idx)
    ensures Picks(InCategory([x] + t, c), [x] + t, Extended(x, c, idx))
  {
    var s := [x] + t;
    assert s[1..] == t;
    var r := InCategory(s, c);
    var rt := InCategory(t, c);
    var sel := Extended(x, c, idx);
    if x.category == c {
      assert r == [x] + rt;
      forall k | 0 <= k < |sel| ensures sel[k] < |s| && r[k] == s[sel[k]] {
        if k > 0 {
          assert sel[k] == idx[k - 1] + 1;
          assert r[k] == rt[k - 1] == t[idx[k - 1]];
        }
      }
    } else {
      assert r == rt;
      forall k | 0 <= k < |sel| ensures sel[k] < |s| && r[k] == s[sel[k]] {
        assert sel[k] == idx[k] + 1;
        assert r[k] == t[idx[k]];
      }
    }
  }

  /** Extending a strictly increasing index list keeps it strictly increasing. */
  lemma ExtendedIncreasing(x: Skill, c: Category, idx: seq<nat>)
    requires Increasing(idx)
    ensures Increasing(Extended(x, c, idx))
  {
    var sel := Extended(x, c, idx);
    forall k, l | 0 <= k < l < |sel| ensures sel[k] < sel[l] {
      if x.category == c {
        if k > 0 {
          assert sel[k] == idx[k - 1] + 1 && sel[l] == idx[l - 1] + 1;
        } else {
          assert sel[l] == idx[l - 1] + 1;
        }
      } else {
        assert sel[k] == idx[k] + 1 && sel[l] == idx[l] + 1;
      }
    }
  }

  /** The extended indices are exactly the positions of the category-c skills of [x] + t. */
  lemma ExtendedCovers(x: Skill, t: seq<Skill>, c: Category, idx: seq<nat>)
    requires Covers(t, c, idx)
    ensures Covers([x] + t, c, Extended(x, c, idx))
  {
    var s := [x] + t;
    var shifted := Shift(idx);
    forall i | 0 <= i < |s| ensures s[i].category == c <==> i in Extended(x, c, idx) {
      if i > 0 {
        assert s[i] == t[i - 1];
        if i - 1 in idx {
          var k :| 0 <= k < |idx| && idx[k] == i - 1;
          assert shifted[k] == i;
        }
        if i in shifted {
          var k :| 0 <= k < |shifted| && shifted[k] == i;
          assert idx[k] == i - 1;
        }
      } else {
        assert 0 !in shifted;
      }
    }
  }

  /** The positions of the category-c skills of s, in increasing order. */
  ghost function CategoryPositions(s: seq<Skill>, c: Category): seq<nat> {
    if s == [] then [] else Extended(s[0], c, CategoryPositions(s[1..], c))
  }

  /**
   * Each category list holds exactly the skills of that category, each occurrence once, in
   * their original order: `CategoryPositions` picks it out of the skills.
   */
  lemma {:induction false} InCategoryIsOrderedSelection(s: seq<Skill>, c: Category)
    ensures SelectsCategory(InCategory(s, c), s, c, CategoryPositions(s, c))
  {
    if s != [] {
      var t, idx := s[1..], CategoryPositions(s[1..], c);
      InCategoryIsOrderedSelection(t, c);
      assert [s[0]] + t == s;
      ExtendedPicks(s[0], t, c, idx);
      ExtendedIncreasing(s[0], c, idx);
      ExtendedCovers(s[0], t, c, idx);
    }
  }

  /** A skill is in the list of category c exactly when it is one of the skills and its category is c. */
  lemma {:induction false} InCategoryMembers(s: seq<Skill>, c: Category)
    ensures forall x :: x in InCategory(s, c) <==> x in s && x.category == c
  {
    if s != [] {
      InCategoryMembers(s[1..], c);
      assert s == [s[0]] + s[1..];
    }
  }

  /** Every skill lands in exactly one list: the one of its own category. */
  lemma EachSkillInExactlyOneList(s: seq<Skill>, x: Skill, c: Category)
    requires x in s
    ensures x in InCategory(s, c) <==> c == x.category
  {
    InCategoryMembers(s, c);
  }

  /** The four lists together are as long as the skill list: nothing is dropped and nothing is doubled. */
  lemma {:induction false} ListSizesSum(s: seq<Skill>)
    ensures |InCategory(s, Frontend)| + |InCategory(s, Backend)| + |InCategory(s, Tools)| + |InCategory(s, Other)| == |s|
  {
    if s != [] {
      ListSizesSum(s[1..]);
    }
  }

  /** `categories`, as `Object.entries` lists it: frontend, backend, tools, other. */
  function Categories(skills: seq<Skill>): (groups: seq<(Category, seq<Skill>)>)
    ensures |groups| == 4
    ensures forall k | 0 <= k < 4 :: Rank(groups[k].0) == k && groups[k].1 == InCategory(skills, groups[k].0)
    ensures forall k | 0 <= k < 4 :: CategoryKey(groups[k].0) == ["frontend", "backend", "tools", "other"][k]
  {
    [(Frontend, InCategory(skills, Frontend)), (Backend, InCategory(skills, Backend)),
     (Tools, InCategory(skills, Tools)), (Other, InCategory(skills, Other))]
  }

  /** The `categorySkills.length > 0 &&` guard: only non-empty groups are rendered. */
  function NonEmptyGroups(groups: seq<(Category, seq<Skill>)>): (r: seq<(Category, seq<Skill>)>)
    ensures forall g :: g in r <==> g in groups && g.1 != []
  {
    if groups == [] then []
    else (if groups[0].1 != [] then [groups[0]] else []) + NonEmptyGroups(groups[1..])
  }

  /** The groups the section renders. */
  function RenderedGroups(skills: seq<Skill>): seq<(Category, seq<Skill>)> {
    NonEmptyGroups(Categories(skills))
  }

  /** A category's list is non-empty exactly when some skill has that category. */
  lemma InCategoryNonEmpty(skills: seq<Skill>, c: Category)
    ensures InCategory(skills, c) != [] <==> exists x :: x in skills && x.category == c
  {
    InCategoryMembers(skills, c);
    var r := InCategory(skills, c);
    if r != [] {
      assert r[0] in r;
    }
  }

  /** A category gets a group exactly when some skill has it, and that group is the category's whole list. */
  lemma RenderedExactlyUsedCategories(skills: seq<Skill>, c: Category)
    ensures (c, InCategory(skills, c)) in RenderedGroups(skills) <==> exists x :: x in skills && x.category == c
  {
    InCategoryNonEmpty(skills, c);
    var gs := Categories(skills);
    assert gs[Rank(c)] == (c, InCategory(skills, c));
    assert (c, InCategory(skills, c)) in gs;
  }

  /** Every rendered group is non-empty and holds its category's list. */
  lemma RenderedGroupsAreCategoryLists(skills: seq<Skill>)
    ensures forall g | g in RenderedGroups(skills) :: g.1 == InCategory(skills, g.0) && g.1 != []
  {
  }

  /** The rendered groups come in the order frontend, backend, tools, other. */
  lemma RenderedGroupsOrdered(skills: seq<Skill>)
    ensures forall k, l | 0 <= k < l < |RenderedGroups(skills)| :: Rank(RenderedGroups(skills)[k].0) < Rank(RenderedGroups(skills)[l].0)
  {
    RanksIncrease(Categories(skills));
  }

  /** Dropping empty groups keeps the groups in increasing category order. */
  lemma {:induction false} RanksIncrease(groups: seq<(Category, seq<Skill>)>)
    requires forall k, l | 0 <= k < l < |groups| :: Rank(groups[k].0) < Rank(groups[l].0)
    ensures forall k, l | 0 <= k < l < |NonEmptyGroups(groups)| :: Rank(NonEmptyGroups(groups)[k].0) < Rank(NonEmptyGroups(groups)[l].0)
  {
    if groups != [] {
      RanksIncrease(groups[1..]);
      var rest := NonEmptyGroups(groups[1..]);
      forall g | g in rest ensures Rank(groups[0].0) < Rank(g.0) {
        var k :| 0 <= k < |groups[1..]| && groups[1..][k] == g;
        assert groups[k + 1] == g;
      }
    }
  }

  /** The dot row of `SkillLevel`: n dots, dot i lit (`bg-blue-400`) when i < level and dim otherwise. */
  function Dots(n: nat, level: int): (dots: seq<bool>)
    ensures |dots| == n
  {
    seq(n, i => i < level)
  }

  /** `SkillLevel`: a row of five dots. */
  function SkillDots(level: int): (dots: seq<bool>)
    ensures |dots| == 5
  {
    Dots(5, level)
  }

  /** The number of lit dots. */
  function CountLit(dots: seq<bool>): nat {
    if dots == [] then 0 else CountLit(dots[..|dots| - 1]) + (if dots[|dots| - 1] then 1 else 0)
  }

  function Clamp(x: int, lo: int, hi: int): int
    requires lo <= hi
  {
    if x < lo then lo else if x > hi then hi else x
  }

  /** Of n dots, the lit ones number level clamped to [0, n]. */
  lemma {:induction false} LitCount(n: nat, level: int)
    ensures CountLit(Dots(n, level)) == Clamp(level, 0, n)
  {
    if n > 0 {
      LitCount(n - 1, level);
      assert Dots(n, level)[..n - 1] == Dots(n - 1, level);
    }
  }

  /**
   * `SkillLevel` lights a prefix of its five dots, and as many as the level clamped to
   * [0, 5]: none for a level of 0 or less, all five for 5 or more.
   */
  lemma SkillDotsMeaning(level: int)
    ensures CountLit(SkillDots(level)) == Clamp(level, 0, 5)
    ensures forall i, j | 0 <= i < j < 5 :: SkillDots(level)[j] ==> SkillDots(level)[i]
    ensures 1 <= level <= 5 ==> CountLit(SkillDots(level)) == level
  {
    LitCount(5, level);
  }
}
