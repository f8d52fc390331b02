/**
 * Value types shared by the master, the jobs and the node protocol:
 * statuses, rate control, job configuration and the wire messages.
 */
module Common {

  datatype Option<+T> = None | Some(value: T)

  /** Status of a node (first four) and of a task (last four), as one enum. */
  datatype Status =
    | NOT_CONNECTED | FREE | WORKING | PAUSED
    | JOB_COMPLETED | JOB_TODO | JOB_COMPUTING | JOB_CANCELED

  /** How the encoder controls its output rate; each kind allows a maximum number of passes. */
  datatype RateControlType = VBR | CRF

  function MaxPass(r: RateControlType): nat
  {
    match r
    case VBR => 2
    case CRF => 1
  }

  /**
   * The encoding configuration of a job. The encoder preset is an enum
   * that is not part of this model; it is kept as an opaque name.
   */
  datatype JobConfig = JobConfig(
    sourceFile: string,
    rateControlType: RateControlType,
    rate: int,
    passes: int,
    preset: string,
    extraEncoderArgs: seq<string>)

  /** The copy constructor: every field of the copy is that of the original. */
  function CopyConfig(config: JobConfig): (copy: JobConfig)
    ensures copy == config
  {
    JobConfig(config.sourceFile, config.rateControlType, config.rate,
              config.passes, config.preset, config.extraEncoderArgs)
  }

  /** Message codes of the cluster protocol that the modelled code uses. */
  datatype ClusterProtocol =
    | CONNECT_ME | DISCONNECT_ME | STATUS_REPORT | TASK_REQUEST | BYE | BAD_REQUEST

  /** A worker asking to connect (or to disconnect): its id, callback port, name and status. */
  datatype ConnectMessage = ConnectMessage(unid: string, localPort: int, name: string, status: Status)

  /** Progress of one task, as a worker reports it; progress is an integer percent. */
  datatype TaskReport = TaskReport(unid: string, jobId: string, taskId: int, progress: int)

  /** A worker's periodic report: its id, its status and perhaps the progress of its task. */
  datatype StatusReport = StatusReport(unid: string, status: Status, loadAverage: int, taskReport: Option<TaskReport>)

  /** Sent from the master to a worker: the task to run, by id. */
  datatype TaskRequestMessage = TaskRequestMessage(jobId: string, taskId: int)

  /**
   * The runtime class of a message object: a bare message, or one of
   * its subclasses with their payloads.
   */
  datatype Body =
    | Plain
    | Connect(connect: ConnectMessage)
    | Report(report: StatusReport)
    | TaskRequest(request: TaskRequestMessage)

  /** A message object: the code it carries and its runtime class. */
  datatype Message = Message(code: ClusterProtocol, body: Body)

  /** What each message class's constructor builds: the code it sets. */
  function NewConnectMessage(unid: string, localPort: int, name: string, status: Status): Message
  {
    Message(CONNECT_ME, Connect(ConnectMessage(unid, localPort, name, status)))
  }

  function NewStatusReport(status: Status, unid: string, taskReport: Option<TaskReport>): Message
  {
    Message(STATUS_REPORT, Report(StatusReport(unid, status, 0, taskReport)))
  }

  function NewTaskRequestMessage(jobId: string, taskId: int): Message
  {
    Message(TASK_REQUEST, TaskRequest(TaskRequestMessage(jobId, taskId)))
  }
}
