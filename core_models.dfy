/**
 * The portfolio records as the API serializes them: skills, projects and
 * their gallery images. A skill's category is kept as the string the
 * serializer emits (one of LANG, FRONT, BACK, DEVOPS, TOOL), because the
 * front end compares it as a string.
 */
module CoreModels {
  import opened Wrappers

  datatype Skill = Skill(name: string, category: string, proficiency: int, isFeatured: bool)

  datatype ProjectImage = ProjectImage(imageUrl: string, caption: string, isFeature: bool)

  datatype Project = Project(
    title: string,
    slug: string,
    tagline: string,
    featuredImageUrl: Option<string>,
    skills: seq<Skill>,
    images: seq<ProjectImage>,
    featured: bool)

  /** The category codes a skill may be stored with. */
  const CategoryCodes: set<string> := {"LANG", "FRONT", "BACK", "DEVOPS", "TOOL"}

  /**
   * `Project.objects.filter(featured=True)`: the featured rows, each as
   * often as it occurs (`FeaturedProjectsCounts`), in table order
   * (`FeaturedProjectsAppend`).
   */
  function FeaturedProjects(ps: seq<Project>): (r: seq<Project>)
    ensures |r| <= |ps|
    ensures forall p :: p in r <==> p in ps && p.featured
  {
    if ps == [] then []
    else
      (if ps[0].featured then [ps[0]] else []) + FeaturedProjects(ps[1..])
  }

  /** Every featured row is kept as often as it occurs, and no other row is. */
  lemma {:induction false} FeaturedProjectsCounts(ps: seq<Project>)
    ensures forall p :: multiset(FeaturedProjects(ps))[p] == if p.featured then multiset(ps)[p] else 0
  {
    if ps != [] {
      assert ps == [ps[0]] + ps[1..];
      FeaturedProjectsCounts(ps[1..]);
    }
  }

  /** The filter works row by row, so it keeps the relative order of the rows. */
  lemma {:induction false} FeaturedProjectsAppend(a: seq<Project>, b: seq<Project>)
    ensures FeaturedProjects(a + b) == FeaturedProjects(a) + FeaturedProjects(b)
  {
    if a == [] {
      assert a + b == b;
    } else {
      assert (a + b)[0] == a[0] && (a + b)[1..] == a[1..] + b;
      FeaturedProjectsAppend(a[1..], b);
    }
  }

  /**
   * `Skill.objects.filter(is_featured=True)`: the featured rows, each as
   * often as it occurs (`FeaturedSkillsCounts`), in table order
   * (`FeaturedSkillsAppend`).
   */
  function FeaturedSkills(skills: seq<Skill>): (r: seq<Skill>)
    ensures |r| <= |skills|
    ensures forall s :: s in r <==> s in skills && s.isFeatured
  {
    if skills == [] then []
    else
      (if skills[0].isFeatured then [skills[0]] else []) + FeaturedSkills(skills[1..])
  }

  /** Every featured row is kept as often as it occurs, and no other row is. */
  lemma {:induction false} FeaturedSkillsCounts(skills: seq<Skill>)
    ensures forall s :: multiset(FeaturedSkills(skills))[s] == if s.isFeatured then multiset(skills)[s] else 0
  {
    if skills != [] {
      assert skills == [skills[0]] + skills[1..];
      FeaturedSkillsCounts(skills[1..]);
    }
  }

  /** The filter works row by row, so it keeps the relative order of the rows. */
  lemma {:induction false} FeaturedSkillsAppend(a: seq<Skill>, b: seq<Skill>)
    ensures FeaturedSkills(a + b) == FeaturedSkills(a) + FeaturedSkills(b)
  {
    if a == [] {
      assert a + b == b;
    } else {
      assert (a + b)[0] == a[0] && (a + b)[1..] == a[1..] + b;
      FeaturedSkillsAppend(a[1..], b);
    }
  }
}
