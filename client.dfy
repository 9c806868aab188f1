/**
 * The entry point of the claim-check client: one namespace lookup, then, in
 * producer mode, check the local file, upload it to object storage and, once
 * the upload is acknowledged, publish the claim check on the stream.
 *
 * The remote services are replaced by scripted responses (`Env`); every call
 * the client makes to them is recorded, with its arguments, in a trace.
 */
module Client {
  import opened Pointer

  newtype byte = x: int | 0 <= x < 256

  /** HTTP status both services answer with on success. */
  const StatusOk: int := 200

  /** A call made to a remote service, with the arguments it carries. */
  datatype Effect =
    | GetNamespace(compartmentId: string)
    | PutObject(namespace: string, bucket: string, objectName: string, body: seq<byte>)
    | PutMessages(streamId: string, messages: seq<string>)

  /**
   * What the outside world answers: the namespace the lookup returns, what the
   * file system reports about the file, the file's bytes, and the HTTP status
   * of the upload and of the publish.
   */
  datatype Env = Env(
    namespace: string,
    fileExists: bool,
    isRegularFile: bool,
    fileContents: seq<byte>,
    putStatus: int,
    appendStatus: int)

  /**
   * Which way a run ended. The client logs only a successful upload and a
   * successful publish; the other ways end without a message.
   */
  datatype Outcome =
    | NotProducer
    | FileRejected
    | PutRefused(status: int)
    | AppendRefused(status: int)
    | Published

  // How many calls of each kind a trace holds.

  function CountLookups(t: seq<Effect>): (n: nat) {
    if t == [] then 0 else CountLookups(t[..|t| - 1]) + (if t[|t| - 1].GetNamespace? then 1 else 0)
  }

  function CountPuts(t: seq<Effect>): (n: nat) {
    if t == [] then 0 else CountPuts(t[..|t| - 1]) + (if t[|t| - 1].PutObject? then 1 else 0)
  }

  function CountAppends(t: seq<Effect>): (n: nat) {
    if t == [] then 0 else CountAppends(t[..|t| - 1]) + (if t[|t| - 1].PutMessages? then 1 else 0)
  }

  /** The producer's object name: the base name of the file path argument. */
  function ObjectNameOf(args: seq<string>): (name: string)
    requires |args| >= 7
  {
    BaseName(args[6])
  }

  /**
   * One run of the client. `args` are the command-line arguments: client type,
   * client name, compartment id, stream id, stream endpoint and, for the
   * producer only, bucket name and file path.
   */
  method RunClient(args: seq<string>, env: Env) returns (trace: seq<Effect>, outcome: Outcome)
    requires |args| >= 5
    requires args[0] == "producer" ==> |args| >= 7
    // the namespace is looked up exactly once, first, in the configured compartment
    ensures |trace| >= 1 && trace[0] == GetNamespace(args[2]) && CountLookups(trace) == 1
    // each remote write happens at most once
    ensures CountPuts(trace) <= 1 && CountAppends(trace) <= 1
    // any mode but "producer" ("consumer" included) makes no remote write
    ensures args[0] != "producer" ==> trace == [GetNamespace(args[2])] && outcome == NotProducer
    // a missing or non-regular file stops the producer before any remote write
    ensures args[0] == "producer" && !(env.fileExists && env.isRegularFile) ==>
              trace == [GetNamespace(args[2])] && outcome == FileRejected
    // an upload happens exactly when the producer has a regular file
    ensures CountPuts(trace) == 1 <==> args[0] == "producer" && env.fileExists && env.isRegularFile
    // the upload goes to the looked-up namespace, the bucket argument and the file's base name
    ensures forall k :: 0 <= k < |trace| && trace[k].PutObject? ==>
              args[0] == "producer" &&
              trace[k] == PutObject(env.namespace, args[5], ObjectNameOf(args), env.fileContents)
    // a publish comes right after an upload that returned 200, and carries one message:
    // the claim check naming exactly the uploaded object
    ensures forall k :: 0 <= k < |trace| && trace[k].PutMessages? ==>
              0 < k && trace[k - 1].PutObject? && env.putStatus == StatusOk &&
              trace[k].streamId == args[3] &&
              trace[k].messages ==
                [PathToObject(trace[k - 1].namespace, trace[k - 1].bucket, trace[k - 1].objectName)]
    // the publish happens exactly when the upload happened and returned 200
    ensures CountAppends(trace) == 1 <==> CountPuts(trace) == 1 && env.putStatus == StatusOk
    // success is reported exactly when both remote writes returned 200
    ensures outcome == Published <==>
              args[0] == "producer" && env.fileExists && env.isRegularFile &&
              env.putStatus == StatusOk && env.appendStatus == StatusOk
    // the producer with a regular file makes exactly these calls, in this order
    ensures args[0] == "producer" && env.fileExists && env.isRegularFile ==>
              trace == [GetNamespace(args[2]), PutObject(env.namespace, args[5], ObjectNameOf(args), env.fileContents)] +
                       (if env.putStatus == StatusOk
                        then [PutMessages(args[3], [PathToObject(env.namespace, args[5], ObjectNameOf(args))])]
                        else [])
    // a refused upload or publish ends the run with that status and nothing after it
    ensures outcome.PutRefused? <==>
              args[0] == "producer" && env.fileExists && env.isRegularFile && env.putStatus != StatusOk
    ensures outcome.PutRefused? ==> outcome.status == env.putStatus
    ensures outcome.AppendRefused? <==>
              args[0] == "producer" && env.fileExists && env.isRegularFile &&
              env.putStatus == StatusOk && env.appendStatus != StatusOk
    ensures outcome.AppendRefused? ==> outcome.status == env.appendStatus
  {
    var clientType := args[0];
    var compartmentId := args[2];
    var streamId := args[3];

    trace := [GetNamespace(compartmentId)];
    var osNamespace := env.namespace;

    if clientType != "producer" {
      outcome := NotProducer;
      return;
    }

    var bucketName := args[5];
    if !env.fileExists || !env.isRegularFile {
      outcome := FileRejected;
      return;
    }

    var objectName := ObjectNameOf(args);
    var osPathToObject := PathToObject(osNamespace, bucketName, objectName);

    trace := trace + [PutObject(osNamespace, bucketName, objectName, env.fileContents)];
    assert trace[..1] == [GetNamespace(compartmentId)] && trace[..1][..0] == [];
    assert CountAppends(trace[..1]) == 0 && CountPuts(trace[..1]) == 0;
    var putStatus := env.putStatus;
    if putStatus != StatusOk {
      outcome := PutRefused(putStatus);
      return;
    }

    var messages: seq<string> := [];
    messages := messages + [osPathToObject];
    trace := trace + [PutMessages(streamId, messages)];
    assert trace[..2][..1] == [GetNamespace(compartmentId)];
    var appendStatus := env.appendStatus;
    if appendStatus == StatusOk {
      outcome := Published;
    } else {
      outcome := AppendRefused(appendStatus);
    }
  }

  /**
   * A producer run for `notes.txt` into `my-bucket` in namespace `ns1`, with
   * both services answering 200.
   */
  method PublishNotesScenario() returns (trace: seq<Effect>, outcome: Outcome)
    ensures outcome == Published
    ensures |trace| == 3 && trace[2] == PutMessages("stream-1", ["/n/ns1/b/my-bucket/o/notes.txt"])
    ensures trace[1] == PutObject("ns1", "my-bucket", "notes.txt", [104, 101, 108, 108, 111])
  {
    var file := "/home/u" + "/" + "notes.txt";
    BaseNameAfterSeparator("/home/u", "notes.txt");
    NotesPointer();
    var args := ["producer", "p1", "compartment-1", "stream-1", "endpoint-1", "my-bucket", file];
    var env := Env("ns1", true, true, [104, 101, 108, 108, 111], 200, 200);
    trace, outcome := RunClient(args, env);
  }

  /** A producer run whose upload is answered 503: nothing is published. */
  method PutRefusedScenario() returns (trace: seq<Effect>, outcome: Outcome)
    ensures outcome == PutRefused(503)
    ensures CountPuts(trace) == 1 && CountAppends(trace) == 0
  {
    var args := ["producer", "p1", "compartment-1", "stream-1", "endpoint-1", "my-bucket", "notes.txt"];
    var env := Env("ns1", true, true, [], 503, 200);
    trace, outcome := RunClient(args, env);
  }
}
