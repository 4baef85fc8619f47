/** TaskService: the registry of single-file conversion tasks, a map from
    task id to a status string. `completed:` and `error:` prefixes carry the
    output name and the error message. */
module Tasks {

  const Unknown: string := "unknown"
  const CompletedPrefix: string := "completed:"
  const ErrorPrefix: string := "error:"

  class TaskService {
    var taskStatus: map<string, string>

    constructor ()
      ensures taskStatus == map[]
    {
      taskStatus := map[];
    }

    /** `getStatus`: the last status written for the id, `unknown` when none was. */
    function GetStatus(taskId: string): (s: string)
      reads this
      ensures taskId !in taskStatus ==> s == Unknown
      ensures taskId in taskStatus ==> s == taskStatus[taskId]
    {
      if taskId in taskStatus then taskStatus[taskId] else Unknown
    }

    /** `setStatus`: overwrites whatever the id had, `completed:` and
        `error:` values included; other ids keep their status. */
    method SetStatus(taskId: string, status: string)
      modifies this
      ensures taskStatus == old(taskStatus)[taskId := status]
      ensures GetStatus(taskId) == status
      ensures forall other :: other != taskId ==> GetStatus(other) == old(GetStatus(other))
    {
      taskStatus := taskStatus[taskId := status];
    }

    /** `setError`: the message behind the `error:` prefix. */
    method SetError(taskId: string, errorMessage: string)
      modifies this
      ensures taskStatus == old(taskStatus)[taskId := ErrorPrefix + errorMessage]
      ensures GetStatus(taskId) == ErrorPrefix + errorMessage
      ensures forall other :: other != taskId ==> GetStatus(other) == old(GetStatus(other))
    {
      taskStatus := taskStatus[taskId := ErrorPrefix + errorMessage];
    }

    /** `setCompleted`: the result behind the `completed:` prefix. */
    method SetCompleted(taskId: string, result: string)
      modifies this
      ensures taskStatus == old(taskStatus)[taskId := CompletedPrefix + result]
      ensures GetStatus(taskId) == CompletedPrefix + result
      ensures forall other :: other != taskId ==> GetStatus(other) == old(GetStatus(other))
    {
      taskStatus := taskStatus[taskId := CompletedPrefix + result];
    }
  }
}
