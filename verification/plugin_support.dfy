/** File access of a transformation run and the error that wraps I/O failures.
    Reads and appends are modelled on data: the readable files with their
    contents, the paths an append fails on, and the log of appends so far. */
module PluginSupport {
  import opened Wrappers

  /** The IOException of a failed read or append, naming the path. */
  datatype IoFailure = IoFailure(path: string)

  /** The transformation-level error an I/O failure is rethrown as. */
  datatype TransformationException = TransformationException(cause: IoFailure)

  datatype FileAccess = FileAccess(
    files: map<string, string>,
    failingAppends: set<string>,
    appended: seq<(string, string)>)

  function ReadToString(fa: FileAccess, path: string): (r: Result<string, IoFailure>)
    ensures r.Success? <==> path in fa.files
    ensures r.Success? ==> r.value == fa.files[path]
    ensures r.Failure? ==> r.error == IoFailure(path)
  {
    if path in fa.files then Success(fa.files[path]) else Failure(IoFailure(path))
  }

  function Append(fa: FileAccess, path: string, content: string): (r: Result<FileAccess, IoFailure>)
    ensures r.Success? <==> path !in fa.failingAppends
    ensures r.Success? ==> r.value.appended == fa.appended + [(path, content)]
    ensures r.Success? ==> r.value.files == fa.files && r.value.failingAppends == fa.failingAppends
    ensures r.Failure? ==> r.error == IoFailure(path)
  {
    if path in fa.failingAppends then Failure(IoFailure(path))
    else Success(fa.(appended := fa.appended + [(path, content)]))
  }
}
