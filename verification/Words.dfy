// 64-bit unsigned arithmetic, written out: every index of the queue is a word, and is compared
// circularly so that it may wrap around.
module Words {
  const WORD: int := 0x1_0000_0000_0000_0000
  const HALF: int := 0x8000_0000_0000_0000

  function Word(x: int): (w: nat)
    ensures w < 0x1_0000_0000_0000_0000
  {
    x % 0x1_0000_0000_0000_0000
  }

  predicate CircularLess(a: nat, b: nat) {
    Word(a - b) > 0x8000_0000_0000_0000
  }

  // The signed value with the same bits.
  function Signed(w: nat): int {
    if w < 0x8000_0000_0000_0000 then w else w - 0x1_0000_0000_0000_0000
  }

  lemma WordOfDifference(a: int, b: int)
    ensures Word(Word(a) - Word(b)) == Word(a - b)
  {
  }

  lemma WordOfSum(a: int, b: int)
    ensures Word(Word(a) + b) == Word(a + b)
  {
  }

  // Comparing two counters by their words agrees with comparing the counters themselves as
  // long as neither has run 2^63 ahead of the other.
  lemma CircularLessIsLess(a: int, b: int)
    requires -HALF < a - b <= HALF
    ensures CircularLess(Word(a), Word(b)) <==> a < b
  {
    WordOfDifference(a, b);
  }

  lemma SignedOfDifference(a: int, b: int)
    requires -HALF <= a - b < HALF
    ensures Signed(Word(Word(a) - Word(b))) == a - b
  {
    WordOfDifference(a, b);
  }

  lemma WordIsInjective(a: int, b: int)
    requires -WORD < a - b < WORD && Word(a) == Word(b)
    ensures a == b
  {
  }

  lemma WordInBlock(x: int)
    ensures Word(x) % 32 == x % 32
  {
  }
}
