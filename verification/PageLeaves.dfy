/** Pages of user memory, the decoded bits of their leaves, and the permissions asked for. */
module PageLeaves {
  const PAGE: nat := 4096
  const USER_END: nat := 0x8000_0000_0000

  predicate Aligned(a: nat) {
    a % PAGE == 0
  }

  /** A present 4 KiB leaf entry. */
  datatype Leaf = Leaf(frame: nat, user: bool, writable: bool, cow: bool, execute: bool, cache: nat)

  /** Requested permission bits (`PageFlags`): no COW bit, memory type separate. */
  datatype Flags = Flags(user: bool, writable: bool, execute: bool)
}
