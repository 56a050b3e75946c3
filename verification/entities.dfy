/** The records of the domain: habits and their tracking logs, goals,
    challenges and their participants, habit templates and statistics. */
module Entities {
  import opened Common

  /** One day of a habit's log: `{ date, completed }`. */
  datatype TrackingEntry = TrackingEntry(date: Day, completed: bool)

  datatype Frequency = Daily | Weekly | Custom

  /** The descriptive fields of a habit, which no operation of the core
      computes: they are only copied. `goalId` and `userId` exist in one of
      the two habit entity declarations and are None for the other. */
  datatype HabitDetails = HabitDetails(
    name: string,
    description: Option<string>,
    icon: Option<string>,
    color: Option<string>,
    frequency: Frequency,
    timeOfDay: Option<string>,
    reminderTime: Option<string>,
    customDays: Option<seq<int>>,
    goalId: Option<string>,
    userId: Option<string>)

  datatype Habit = Habit(
    id: string,
    details: HabitDetails,
    currentStreak: nat,
    longestStreak: nat,
    createdAt: string,
    trackingData: seq<TrackingEntry>)

  /** The predicate `h => h.id === id` of the repositories' lookups. */
  function HabitIdIs(id: string): Habit -> bool {
    (h: Habit) => h.id == id
  }

  /** A habit before the repository gives it an id and a creation time
      (`Omit<Habit, "id" | "createdAt">`). */
  datatype HabitDraft = HabitDraft(
    details: HabitDetails,
    currentStreak: nat,
    longestStreak: nat,
    trackingData: seq<TrackingEntry>)

  datatype HabitStats = HabitStats(
    totalHabits: nat,
    activeStreak: nat,
    completionRate: real,
    totalCompletions: nat)

  /** A suggested habit (`Partial<Habit>`), restricted to the fields that are
      read when a habit is made from it. */
  datatype HabitTemplate = HabitTemplate(
    name: Option<string>,
    description: Option<string>,
    icon: Option<string>,
    color: Option<string>,
    frequency: Option<Frequency>,
    timeOfDay: Option<string>,
    reminderTime: Option<string>,
    customDays: Option<seq<int>>)

  /** Goal and challenge categories share the same seven names. */
  datatype Category = Health | Productivity | Learning | Fitness | Mindfulness | Social | Other

  datatype Goal = Goal(
    id: string,
    userId: string,
    title: string,
    description: Option<string>,
    category: Category,
    targetDate: Option<Day>,
    completed: bool,
    createdAt: string)

  datatype Participant = Participant(
    userId: string,
    joinedAt: string,
    progress: nat,
    completedDays: seq<Day>)

  datatype Challenge = Challenge(
    id: string,
    title: string,
    description: string,
    creatorId: string,
    startDate: Day,
    endDate: Day,
    category: Category,
    isPublic: bool,
    participants: seq<Participant>,
    habitTemplate: Option<HabitTemplate>,
    createdAt: string)

  /** A challenge before the repository gives it an id and a creation time. */
  datatype ChallengeDraft = ChallengeDraft(
    title: string,
    description: string,
    creatorId: string,
    startDate: Day,
    endDate: Day,
    category: Category,
    isPublic: bool,
    participants: seq<Participant>,
    habitTemplate: Option<HabitTemplate>)
}
