/** The shapes of monthly goals and of the progress derived from them. */
module Goals {
  import opened Wrappers

  /** A number of times an activity is to be done in the month. */
  datatype ActivityTarget = ActivityTarget(activityId: string, targetCount: int)

  /** A member's goal for one month (`YYYY-MM`), with optional ISO timestamps. */
  datatype MemberGoal = MemberGoal(
    memberId: string,
    month: string,
    activityTargets: seq<ActivityTarget>,
    createdAt: Option<string>,
    updatedAt: Option<string>)

  /**
   * A percentage as JavaScript computes it: a whole number, or the NaN and
   * -Infinity that a division by a zero target produces.
   */
  datatype Percentage = Finite(value: int) | NaN | NegativeInfinity

  datatype ActivityProgress = ActivityProgress(
    activityId: string,
    activityName: string,
    targetCount: int,
    currentCount: int,
    progressPercentage: Percentage,
    remainingCount: int,
    isCompleted: bool)

  datatype GoalProgress = GoalProgress(
    memberId: string,
    memberName: string,
    month: string,
    activityProgresses: seq<ActivityProgress>,
    totalActivitiesWithGoals: nat,
    completedActivities: nat,
    overallProgressPercentage: int)
}
