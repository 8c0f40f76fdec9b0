/** How an HTTP probe reads the first line of a response from however many reads it takes. */
module StatusLine {
  import opened Wrappers

  const CAPACITY: nat := 128

  /** The place of the first newline, or the length. */
  function Newline(s: string): (i: nat)
    ensures i <= |s|
    ensures i < |s| ==> s[i] == '\n'
    ensures forall j :: 0 <= j < i ==> s[j] != '\n'
  {
    if s == [] || s[0] == '\n' then 0 else 1 + Newline(s[1..])
  }

  /** The first line of a response, if it ends within the buffer. */
  function FirstLine(response: string): Option<string> {
    var seen := if |response| > CAPACITY then response[..CAPACITY] else response;
    if Newline(seen) < |seen| then Some(seen[..Newline(seen)]) else None
  }

  /** The line is what stands before the first newline, if that is among the first 128 bytes. */
  lemma LineMeaning(response: string)
    ensures FirstLine(response).Some? <==> exists i :: 0 <= i < 128 && i < |response| && response[i] == '\n'
    ensures FirstLine(response).Some? ==>
              var line := FirstLine(response).value;
              |line| < 128 && line + ['\n'] <= response && '\n' !in line
  {
    var seen := if |response| > CAPACITY then response[..CAPACITY] else response;
    var n := Newline(seen);
    if n < |seen| {
      assert response[n] == '\n' && response[..n] == seen[..n];
      assert response[..n + 1] == seen[..n] + ['\n'];
    } else {
      assert forall i :: 0 <= i < |seen| ==> response[i] == seen[i];
    }
  }

  lemma NewlineFound(s: string, i: nat)
    requires i < |s| && s[i] == '\n' && forall j :: 0 <= j < i ==> s[j] != '\n'
    ensures Newline(s) == i
  {
    assert !(Newline(s) < i) && !(i < Newline(s));
  }

  /** The line seen so far in the buffer is the line of the whole response. */
  lemma SeenLine(response: string, size: nat)
    requires size <= |response| && size <= CAPACITY
    ensures Newline(response[..size]) < size ==> FirstLine(response) == Some(response[..Newline(response[..size])])
    ensures Newline(response[..size]) == size && (size == CAPACITY || size == |response|) ==> FirstLine(response).None?
  {
    var seen := if |response| > CAPACITY then response[..CAPACITY] else response;
    var part := response[..size];
    assert part == seen[..size];
    if Newline(part) < size {
      NewlineFound(seen, Newline(part));
      assert seen[..Newline(part)] == response[..Newline(part)];
    } else if size == CAPACITY || size == |response| {
      assert seen == part;
    }
  }

  /**
   The read loop of `http_probe`: each read fails or meets the deadline, or
   hands over at least one byte of what is left, at most what fits, until the
   line is complete, the buffer is full or the response ends. The line does
   not depend on how it was cut, and a failed read can only lose it.
   */
  method ReadFirstLine(response: string, sizes: nat -> Option<nat>) returns (line: Option<string>)
    ensures line.Some? ==> line == FirstLine(response)
    ensures (forall turn :: 0 <= turn < CAPACITY ==> sizes(turn).Some?) ==> line == FirstLine(response)
  {
    hide FirstLine, Newline;
    var buffer := new char[CAPACITY];
    var size, turn := 0, 0;
    while true
      invariant size <= CAPACITY && size <= |response|
      invariant buffer[..size] == response[..size]
      invariant Newline(response[..size]) == size
      invariant turn <= size < CAPACITY
      decreases CAPACITY - size
    {
      var left := |response| - size;
      var read := if left < CAPACITY - size then left else CAPACITY - size;
      var answer := sizes(turn);
      if answer.None? {
        return None;
      }
      if 0 < answer.value < read {
        read := answer.value;
      }
      turn := turn + 1;
      if read == 0 {
        SeenLine(response, size);
        return None;
      }
      forall i | size <= i < size + read {
        buffer[i] := response[i];
      }
      size := size + read;
      assert buffer[..size] == response[..size];
      SeenLine(response, size);
      var lineEnd := Newline(buffer[..size]);
      if lineEnd < size {
        assert buffer[..lineEnd] == response[..lineEnd];
        return Some(buffer[..lineEnd]);
      }
      if size == CAPACITY {
        return None;
      }
    }
  }
}
