/** Habit suggestions: a fixed table of three templates per goal category,
    the suggestions for a user's goals (the first two templates of each
    category, in the order the categories first appear, or three generic
    ones when there are no goals), and a habit made from a suggestion. */
module SuggestionService {
  import opened Common
  import opened Entities
  import opened TrackingLog
  import opened HabitUtils

  /** A suggestion as the table writes it: name, icon, frequency and
      description, the other fields absent. */
  function Suggestion(name: string, icon: string, frequency: Frequency, description: string): HabitTemplate {
    HabitTemplate(Some(name), Some(description), Some(icon), None, Some(frequency), None, None, None)
  }

  /** A suggestion of the table: every field the table writes is present,
      with a non-empty name. */
  predicate IsTableEntry(t: HabitTemplate) {
    && t.name.Some? && |t.name.value| > 0
    && t.icon.Some? && t.description.Some? && t.frequency.Some?
    && t.color.None? && t.timeOfDay.None? && t.reminderTime.None? && t.customDays.None?
  }

  /** The shape of `habitSuggestionMap`: templates by goal category. */
  type SuggestionMap = map<Category, seq<HabitTemplate>>

  /** Every category has an entry of three templates. */
  predicate Complete(m: SuggestionMap) {
    forall c :: c in m && |m[c]| == 3
  }

  /** A map with an entry of three templates for each of the seven
      categories is complete. */
  lemma CompleteWhenEveryCategoryHasThree(h: seq<HabitTemplate>, f: seq<HabitTemplate>, p: seq<HabitTemplate>,
                                          l: seq<HabitTemplate>, mi: seq<HabitTemplate>, so: seq<HabitTemplate>, o: seq<HabitTemplate>)
    requires |h| == |f| == |p| == |l| == |mi| == |so| == |o| == 3
    ensures Complete(map[Health := h, Fitness := f, Productivity := p, Learning := l,
                         Mindfulness := mi, Social := so, Other := o])
  {
    var m := map[Health := h, Fitness := f, Productivity := p, Learning := l,
                 Mindfulness := mi, Social := so, Other := o];
    forall c ensures c in m && |m[c]| == 3 {
      match c
      case Health =>
      case Fitness =>
      case Productivity =>
      case Learning =>
      case Mindfulness =>
      case Social =>
      case Other =>
    }
  }

  /** The table the service is built with. */
  function SuggestionTable(): (m: SuggestionMap)
    ensures Complete(m)
  {
    CompleteWhenEveryCategoryHasThree(HealthTemplates(), FitnessTemplates(), ProductivityTemplates(),
      LearningTemplates(), MindfulnessTemplates(), SocialTemplates(), OtherTemplates());
    map[
      Health := HealthTemplates(),
      Fitness := FitnessTemplates(),
      Productivity := ProductivityTemplates(),
      Learning := LearningTemplates(),
      Mindfulness := MindfulnessTemplates(),
      Social := SocialTemplates(),
      Other := OtherTemplates()]
  }

  /** Every template of the table names a habit and gives its icon,
      frequency and description. */
  lemma TableEntriesAreComplete(c: Category, i: nat)
    requires i < 3
    ensures IsTableEntry(SuggestionTable()[c][i])
  {
    EntriesOfEveryCategory(HealthTemplates(), FitnessTemplates(), ProductivityTemplates(),
      LearningTemplates(), MindfulnessTemplates(), SocialTemplates(), OtherTemplates(), c, i);
  }

  /** The template at position `i` of the entry for `c`, in a map built from
      seven lists of table entries, is a table entry. */
  lemma EntriesOfEveryCategory(h: seq<HabitTemplate>, f: seq<HabitTemplate>, p: seq<HabitTemplate>,
                               l: seq<HabitTemplate>, mi: seq<HabitTemplate>, so: seq<HabitTemplate>, o: seq<HabitTemplate>,
                               c: Category, i: nat)
    requires |h| == |f| == |p| == |l| == |mi| == |so| == |o| == 3 && i < 3
    requires IsTableEntry(h[i]) && IsTableEntry(f[i]) && IsTableEntry(p[i]) && IsTableEntry(l[i])
    requires IsTableEntry(mi[i]) && IsTableEntry(so[i]) && IsTableEntry(o[i])
    ensures IsTableEntry(map[Health := h, Fitness := f, Productivity := p, Learning := l,
                             Mindfulness := mi, Social := so, Other := o][c][i])
  {
    match c
    case Health =>
    case Fitness =>
    case Productivity =>
    case Learning =>
    case Mindfulness =>
    case Social =>
    case Other =>
  }

  /** The `health` entry of the table. */
  function HealthTemplates(): (r: seq<HabitTemplate>)
    ensures |r| == 3
    ensures forall i :: 0 <= i < |r| ==> IsTableEntry(r[i])
  {
    [
      Suggestion("Drink 8 glasses of water", "\U{1F4A7}", Daily, "Stay hydrated throughout the day"),
      Suggestion("Take vitamins", "\U{1F48A}", Daily, "Support your health with supplements"),
      Suggestion("Healthy meal prep", "\U{1F957}", Weekly, "Prepare healthy meals ahead of time")
    ]
  }

  /** The `fitness` entry of the table. */
  function FitnessTemplates(): (r: seq<HabitTemplate>)
    ensures |r| == 3
    ensures forall i :: 0 <= i < |r| ==> IsTableEntry(r[i])
  {
    [
      Suggestion("30 minute workout", "\U{1F4AA}", Daily, "Consistent exercise for better fitness"),
      Suggestion("10,000 steps", "\U{1F3C3}\U{200D}\U{2642}\U{FE0F}", Daily, "Stay active throughout the day"),
      Suggestion("Stretch routine", "\U{1F9D8}\U{200D}\U{2642}\U{FE0F}", Daily, "Improve flexibility and prevent injuries")
    ]
  }

  /** The `productivity` entry of the table. */
  function ProductivityTemplates(): (r: seq<HabitTemplate>)
    ensures |r| == 3
    ensures forall i :: 0 <= i < |r| ==> IsTableEntry(r[i])
  {
    [
      Suggestion("Deep work session", "\U{1F3AF}", Daily, "Focused work without distractions"),
      Suggestion("Email zero inbox", "\U{1F4E7}", Daily, "Process all emails to keep inbox clean"),
      Suggestion("Weekly planning", "\U{1F4DD}", Weekly, "Plan your week in advance")
    ]
  }

  /** The `learning` entry of the table. */
  function LearningTemplates(): (r: seq<HabitTemplate>)
    ensures |r| == 3
    ensures forall i :: 0 <= i < |r| ==> IsTableEntry(r[i])
  {
    [
      Suggestion("Read 20 pages", "\U{1F4DA}", Daily, "Build knowledge through consistent reading"),
      Suggestion("Learn a language", "\U{1F5E3}\U{FE0F}", Daily, "Practice for at least 15 minutes"),
      Suggestion("Take an online course", "\U{1F4BB}", Weekly, "Invest in your skills development")
    ]
  }

  /** The `mindfulness` entry of the table. */
  function MindfulnessTemplates(): (r: seq<HabitTemplate>)
    ensures |r| == 3
    ensures forall i :: 0 <= i < |r| ==> IsTableEntry(r[i])
  {
    [
      Suggestion("Morning meditation", "\U{1F9D8}\U{200D}\U{2642}\U{FE0F}", Daily, "Start your day with mindfulness"),
      Suggestion("Gratitude journal", "\U{270D}\U{FE0F}", Daily, "Write three things you're grateful for"),
      Suggestion("Digital detox hour", "\U{1F4F5}", Daily, "Take a break from screens")
    ]
  }

  /** The `social` entry of the table. */
  function SocialTemplates(): (r: seq<HabitTemplate>)
    ensures |r| == 3
    ensures forall i :: 0 <= i < |r| ==> IsTableEntry(r[i])
  {
    [
      Suggestion("Call a friend", "\U{1F4DE}", Weekly, "Stay connected with loved ones"),
      Suggestion("Networking", "\U{1F91D}", Weekly, "Reach out to one professional contact"),
      Suggestion("Family dinner", "\U{1F46A}", Weekly, "Quality time with family")
    ]
  }

  /** The `other` entry of the table. */
  function OtherTemplates(): (r: seq<HabitTemplate>)
    ensures |r| == 3
    ensures forall i :: 0 <= i < |r| ==> IsTableEntry(r[i])
  {
    [
      Suggestion("Hobby time", "\U{1F3A8}", Weekly, "Make time for activities you enjoy"),
      Suggestion("Declutter one area", "\U{1F9F9}", Weekly, "Maintain a clean living space"),
      Suggestion("Personal finance check", "\U{1F4B0}", Weekly, "Review your budget and spending")
    ]
  }

  /** The suggestions given when the user has no goals. */
  function GenericSuggestions(): (r: seq<HabitTemplate>)
    ensures |r| == 3
    ensures forall i :: 0 <= i < |r| ==> IsTableEntry(r[i])
  {
    [
      Suggestion("Morning routine", "\U{1F305}", Daily, "Start your day with intention"),
      Suggestion("Evening reflection", "\U{1F319}", Daily, "Review your day before sleep"),
      Suggestion("Weekly planning", "\U{1F4DD}", Weekly, "Plan your week for better productivity")
    ]
  }

  /** The goals' categories, each once, in the order of first appearance. */
  function FirstSeen(goals: seq<Goal>): (cats: seq<Category>)
    ensures Distinct(cats)
    ensures forall c :: c in cats <==> exists i :: 0 <= i < |goals| && goals[i].category == c
    ensures |goals| > 0 ==> |cats| > 0
  {
    if |goals| == 0 then []
    else
      var prefix := FirstSeen(goals[..|goals| - 1]);
      var c := goals[|goals| - 1].category;
      assert forall i :: 0 <= i < |goals| - 1 ==> goals[..|goals| - 1][i] == goals[i];
      if c in prefix then prefix else prefix + [c]
  }

  /** The first two templates of each category, in order. */
  function Picks(cats: seq<Category>, m: SuggestionMap): (r: seq<HabitTemplate>)
    requires Complete(m)
    ensures |r| == 2 * |cats|
    ensures forall k :: 0 <= k < |cats| ==>
      r[2 * k] == m[cats[k]][0] && r[2 * k + 1] == m[cats[k]][1]
  {
    if |cats| == 0 then []
    else
      var init := cats[..|cats| - 1];
      var rest := Picks(init, m);
      var last := m[cats[|cats| - 1]];
      assert forall k :: 0 <= k < |init| ==> init[k] == cats[k];
      var r := rest + last[..2];
      assert r[2 * |init|] == last[0] && r[2 * |init| + 1] == last[1];
      r
  }

  /** What `getSuggestedHabitsForUser` returns for the goals. */
  function SuggestionsFor(goals: seq<Goal>, m: SuggestionMap): (r: seq<HabitTemplate>)
    requires Complete(m)
    ensures |goals| == 0 ==> r == GenericSuggestions()
    ensures |goals| > 0 ==> r == Picks(FirstSeen(goals), m) && |r| == 2 * |FirstSeen(goals)|
    ensures |r| > 0
  {
    var picked := Picks(FirstSeen(goals), m);
    if |picked| == 0 then GenericSuggestions() else picked
  }

  /** A goal whose category appeared already adds no suggestion. */
  lemma RepeatedCategoryAddsNothing(goals: seq<Goal>, g: Goal, m: SuggestionMap)
    requires Complete(m)
    requires exists i :: 0 <= i < |goals| && goals[i].category == g.category
    ensures SuggestionsFor(goals + [g], m) == SuggestionsFor(goals, m)
  {
    assert (goals + [g])[..|goals|] == goals;
  }

  /** A goal of a new category adds that category's first two templates at
      the end. */
  lemma NewCategoryAddsTwo(goals: seq<Goal>, g: Goal, m: SuggestionMap)
    requires Complete(m)
    requires |goals| > 0
    requires forall i :: 0 <= i < |goals| ==> goals[i].category != g.category
    ensures SuggestionsFor(goals + [g], m) == SuggestionsFor(goals, m) + m[g.category][..2]
  {
    assert (goals + [g])[..|goals|] == goals;
    var cats := FirstSeen(goals) + [g.category];
    assert cats[..|cats| - 1] == FirstSeen(goals);
  }

  class SuggestionService {
    /** Templates by goal category. */
    const habitSuggestionMap: SuggestionMap

    constructor()
      ensures habitSuggestionMap == SuggestionTable()
    {
      habitSuggestionMap := SuggestionTable();
    }

    /** The service holds a template list of three for every category, as
      the one built by the constructor does. */
    predicate Valid() {
      Complete(habitSuggestionMap)
    }

    /** `getSuggestedHabitsForGoal`: the templates for the goal's category,
      or none when the table has no entry for it. */
    function SuggestedHabitsForGoal(goal: Goal): (r: seq<HabitTemplate>)
      ensures goal.category in habitSuggestionMap ==> r == habitSuggestionMap[goal.category]
      ensures goal.category !in habitSuggestionMap ==> r == []
      ensures Valid() ==> |r| == 3
    {
      if goal.category in habitSuggestionMap then habitSuggestionMap[goal.category] else []
    }

    /** `getSuggestedHabitsForUser`: the loop over the goals with the set of
      categories seen so far, then the generic list if nothing was picked.
      The user argument is not read. */
    method SuggestedHabitsForUser(goals: seq<Goal>) returns (suggestions: seq<HabitTemplate>)
      requires Valid()
      ensures suggestions == SuggestionsFor(goals, habitSuggestionMap)
      ensures |goals| == 0 ==> suggestions == GenericSuggestions()
      ensures |goals| > 0 ==> |suggestions| == 2 * |FirstSeen(goals)|
      ensures |suggestions| > 0
    {
      suggestions := [];
      var seenCategories: set<Category> := {};
      for i := 0 to |goals|
        invariant forall c :: c in seenCategories <==> c in FirstSeen(goals[..i])
        invariant suggestions == Picks(FirstSeen(goals[..i]), habitSuggestionMap)
      {
        assert goals[..i + 1][..i] == goals[..i];
        var goal := goals[i];
        if goal.category !in seenCategories {
          var categoryHabits := SuggestedHabitsForGoal(goal);
          ghost var cats := FirstSeen(goals[..i + 1]);
          assert cats[..|cats| - 1] == FirstSeen(goals[..i]);
          suggestions := suggestions + categoryHabits[..2];
          seenCategories := seenCategories + {goal.category};
        }
      }
      assert goals[..|goals|] == goals;
      if |suggestions| == 0 {
        suggestions := GenericSuggestions();
      }
    }
  }

  /** `createHabitFromSuggestion`: the suggestion's fields, an empty or
      missing name replaced by "New Habit" and a missing frequency by daily,
      no streak, no log, the given owner, and the id and creation time the
      caller supplies. */
  function CreateHabitFromSuggestion(s: HabitTemplate, userId: Option<string>, id: string, createdAt: string): (h: Habit)
    ensures h.id == id && h.createdAt == createdAt
    ensures h.details.name != ""
    ensures s.name.Some? && s.name.value != "" ==> h.details.name == s.name.value
    ensures s.name.None? || s.name.value == "" ==> h.details.name == "New Habit"
    ensures s.frequency.Some? ==> h.details.frequency == s.frequency.value
    ensures s.frequency.None? ==> h.details.frequency == Daily
    ensures h.details.description == s.description && h.details.icon == s.icon && h.details.color == s.color
    ensures h.details.timeOfDay == s.timeOfDay && h.details.reminderTime == s.reminderTime
    ensures h.details.customDays == s.customDays
    ensures h.details.userId == userId && h.details.goalId.None?
    ensures h.currentStreak == 0 && h.longestStreak == 0 && h.trackingData == []
    ensures WellFormed(h)
  {
    var name := if s.name.Some? && s.name.value != "" then s.name.value else "New Habit";
    var frequency := if s.frequency.Some? then s.frequency.value else Daily;
    Habit(id,
      HabitDetails(name, s.description, s.icon, s.color, frequency, s.timeOfDay, s.reminderTime,
        s.customDays, None, userId),
      0, 0, createdAt, [])
  }

  /** A habit made from a suggestion of the table keeps the suggestion's
      name and frequency: no default is needed. */
  lemma TableSuggestionKeepsName(category: Category, i: nat, userId: Option<string>, id: string, createdAt: string)
    requires i < 3
    ensures var t := SuggestionTable()[category][i];
      var h := CreateHabitFromSuggestion(t, userId, id, createdAt);
      h.details.name == t.name.value && h.details.frequency == t.frequency.value
  {
    TableEntriesAreComplete(category, i);
  }
}
