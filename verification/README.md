# The ext2 engine, modelled and proved in Dafny

The model follows `fs/ext2.c` from the bitmaps up to `mkdir` and `rmdir`, with the device layer of `fs/vfs.c`, the list macros of
`libs/lists.h` and the tokenizer of `libs32/klib.c` beside it. `dafny verify dfyconfig.toml` checks all of it.

The C code is a set of functions that update structs through pointers. The model keeps that form: `Volume` is the mounted device with its
group descriptors, bitmaps and superblock counters, `FileHandle` is `file_ext2_t` with the in-memory inode, the cached group descriptor and
the block cursor, and each C function is a method over them with the C function's branches and loops. What the methods mean is said by
functions of the volume as a value (`Disk`, `Snapshot`, the names `Table`), and the promises are lemmas about those.

The layers, bottom up:

- `Arithmetic`, `Bytes`: little-endian fields, zero blocks, `Overlay` (bytes laid over bytes) and `Clamp` (a slice cut to what exists).
- `BlockIndex`: the mixed-radix decoder from file block to index vector, a bijection on everything three levels of indirection can reach.
- `Tree`, `Contents`: places of the link trees of all files; `owner` gives each reachable block the one place that refers to it, so no block
  is shared; `Content` is a file's bytes, read by a walk from the inode, holes being 0.
- `Bitmap`, `Accounting`, `Layout`: bitmaps, counters and the two-way arithmetic between (group, bit) and block or inode numbers.
- `Volumes`: the allocators and the invariant `Consistent`: marked blocks are the reachable ones and those reserved from the start, every counter is a number of clear bits,
  `i_blocks` counts a file's blocks, and bytes past a file's end are 0.
- `FileHandles`: the cursor caches the path of the current offset and always agrees with a walk from the inode.
- `Grafting`, `Teardown`, `FileIO`, `Spaces`, `NewInodes`: growing and cutting trees, byte reads and writes, what a write is short of, new
  inodes.
- `DirRecords`, `RecordBytes`, `DirStores`, `Directories`, `Unlinking`: directories as tiled records that behave as a map from names to
  inodes, and what entering and unlinking a name write byte by byte.
- `Names`, `Operations`, `Namespace`, `Conservation`: create, mkdir, unlink, rmdir and write as transitions; link counts count names and
  records tell the type of their file in every state of every run; a file that is created, written any number of times and unlinked leaves everything as it was, but for the
  blocks its directory has gained for the name.
- `Runs`: any sequence of commands on one volume, each opening its files by inode number and skipped when its guard fails: all that the
  volume promises of names, bitmaps, counters and sharing holds in every state.
- `FirstDirectory`: a volume on which nothing is marked, or only a reserved block, takes a directory that is its own parent by the same
  operations, so the invariants and what the operations ask for can be met.
- `Witnesses`: for each thing the code does not do, listed below, an input that shows it.
- `Tokenizer`, `Path`: `parse_buf` in place on an array, and path resolution as a left fold of lookups.
- `RingList`, `BlockDevice`: the five list macros on a ring of nodes; byte runs over a device that moves whole sectors.

A volume is assumed to be laid out as the code takes for granted (`Geometry.Ok`): block size 1024 or 2048, inode records of 128 bytes, bitmaps
of one block, an inode table that fills whole blocks, a device whose byte offsets fit 32 bits. The on-disk structures are those of "The Second
Extended File System – Internal Layout" by D. Poirier: block group descriptor table, block and inode bitmaps, inode table, linked-list
directories.

What the proofs found the code does not do, each with the exact condition:

- With `s_first_data_block` 1 the last bit the allocator may hand out names block `s_blocks_count`, one past the end; it names a block of the
  device exactly when `s_first_data_block` is 0 (`Layout.LastBitOnDevice`, `Witnesses.LastBitBehindDevice`). Where that bit has been
  set when the volume was made, no file gets the block (`Conservation.FilesOnDevice`, `Witnesses.LastBitReserved`).
- `allocate_new_data_block` tests for one free block. That is enough for a hole exactly when its last index block exists or it needs none
  (`Grafting.GuardSuffices`, `Witnesses.TwoShort`). With fewer free blocks than the path is short of, and only then, an index block is
  written over the block just made, which then links to itself, so that two places hold one block (`Grafting.GraftPath`, both directions;
  `Witnesses.OneBlockLeft`). `WriteFile` therefore asks for as many free blocks as the write is short of.
- `create_dir_entry_ext2` does not look for the name it enters: what it leaves is a directory exactly when the name is new
  (`Directories.InsertedIff`, `Witnesses.NameTwice`); `execute_mkdir` in fs/vfs.c enters one without a lookup.
- Unlinking the first record of a directory zeroes its `rec_len`: what is left is a directory exactly when the victim was not the first
  record (`Unlinking.TiledUnlessFirst`, `Witnesses.FirstRecordFound`). `delete_directory_ext2` does this on purpose, to a directory that is
  about to go.
- `create_file_ext2` and `create_directory_ext2` with a name over 255 bytes fail after the inode has been allocated, which then stays marked
  without a name (`Namespace.CreateFile`, `Namespace.CreateDirectory`, `Witnesses.LongFile`, `Witnesses.LongDirectory`,
  `Witnesses.LongNames`).
- A mkdir counts the new directory in the group of its inode, an rmdir takes one off the count of its parent's group: after both the
  counts are what they were exactly when the two are one group (`Namespace.DirCountsBack`).
- A directory that has two names left but once grew a second block is not removed by `delete_directory_ext2`: it tests where the last record
  starts (`Namespace.DeleteDirectory`, both directions; `Witnesses.EmptyButNotRemoved`).

## Model

| member | source | states |
|---|---|---|
| `Bytes.LinkSpelled` | fs/ext2.c:652-655 | entry k of an index block is its bytes 4k to 4k + 3, the lowest first |
| `Bytes.PutLinkStores` | fs/ext2.c:1030-1043 | writing an entry stores its number in those four bytes and changes no other |
| `BlockIndex.GetIndirectBlocks` | fs/ext2.c:474-536 | the limit scan stops by mode 3 for every 32-bit offset and the index vector is the mixed-radix decoding of the block's rank in its mode |
| `BlockIndex.OffsetsReachable` | fs/ext2.c:482-505 | every 32-bit offset lies within triple indirection for both block sizes |
| `BlockIndex.IndexInRange` | fs/ext2.c:538-627 | every index vector is in range, its first entry tells the mode, and the reconstruction of test_get_indirect_blocks gives the block number back |
| `BlockIndex.IndexInjective` | fs/ext2.c:794-798 | different blocks have different index vectors, which justifies the cursor's comparison of vectors alone |
| `BlockIndex.IndexOnto` | fs/ext2.c:604-612 | every well-formed index vector is the vector of the block that the reconstruction computes: with IndexInRange a bijection |
| `BlockIndex.IndexDirect` | fs/ext2.c:489-536 | blocks below 12 are slots of their own, the next ones have slot 12 and one digit |
| `BlockIndex.IndexDouble` | fs/ext2.c:489-536 | then slot 13 and the two digits of the rank, the higher one first |
| `BlockIndex.IndexTriple` | fs/ext2.c:489-536 | then slot 14 and three digits |
| `Bitmap.SetBitTest` | fs/ext2.c:861-864 | set_bit turns on the bit it names and changes no other |
| `Bitmap.ResetBitTest` | fs/ext2.c:866-869 | reset_bit turns off the bit it names and changes no other |
| `Bitmap.SetThenReset` | fs/ext2.c:861-869 | setting a clear bit and resetting it gives the bitmap back byte for byte |
| `Bitmap.BitIsDigit` | fs/ext2.c:855-859 | test_bit reads the digit of 2^(i mod 8) of byte i / 8, counted from the low end |
| `Bitmap.SetBitAdds` | fs/ext2.c:861-864 | setting a clear bit adds 2^(i mod 8) to byte i / 8 and changes no other byte |
| `Bitmap.ResetBitTakes` | fs/ext2.c:866-869 | resetting a set bit takes it away again |
| `Bitmap.FindClearBit` | fs/ext2.c:908-926 | the scan finds the lowest clear bit of the range, and fails only when all are set |
| `Layout.BlockAddressInverse` | fs/ext2.c:917 | the block number allocate_block builds from (group, bit) is decoded by deallocate_block to that group and bit |
| `Layout.BlockAddressOf` | fs/ext2.c:1237-1262 | every data block is the block of the group and bit it decodes to; its number is above 0 and below s_blocks_count + s_first_data_block |
| `Layout.InodeAddressInverse` | fs/ext2.c:1130-1131 | the inode number built from (group, bit) is a valid one and decodes to that group and bit |
| `Layout.InodeAddressOf` | fs/ext2.c:1359-1362 | every inode number decodes to a group and bit in range that build it again |
| `Layout.NumbersSpelled` | fs/ext2.c:58-75 | block and inode numbers and the first bit of a group in terms of the superblock fields |
| `Layout.RecordSpelled` | fs/ext2.c:405-430 | the byte offset of an inode record in terms of the superblock fields |
| `Layout.InodeRecordsDisjoint` | fs/ext2.c:405-452 | the records of any two different inodes do not overlap, in one group or in two whose tables lie apart |
| `Layout.InodeRecordInTable` | fs/ext2.c:405-452 | an inode's record lies in its group's table and ends before the group's data blocks begin |
| `Layout.LastBitOnDevice` | fs/ext2.c:77-91 | the last bit of the last group names a block of the device if and only if s_first_data_block is 0 |
| `Accounting.FindFree` | fs/ext2.c:892-940 | one cyclic pass over the groups from the goal succeeds exactly when any bit is clear, and then finds the first one in cyclic order |
| `Accounting.ScanOrder` | fs/ext2.c:886-942 | the cell found is met after some steps upwards from the goal with wrap-around, no group met before has a free cell, and no lower bit of its group is free |
| `Accounting.Take` | fs/ext2.c:914-921 | setting a clear bit and decrementing its group's counter keeps bitmaps, counters and the set of numbers taken in step |
| `Accounting.Give` | fs/ext2.c:1267-1278 | resetting a set bit and incrementing its group's counter does too |
| `Accounting.SomeFree` | fs/ext2.c:977-981 | while the counters do not add up to 0 there is a clear bit |
| `Accounting.CountersAreClearBits` | fs/ext2.c:919-921 | the group counters add up to the number of numbers not taken |
| `Accounting.AllocationDetermined` | fs/ext2.c:855-869 | the numbers taken determine both the bitmaps, byte for byte, and all group counters |
| `Accounting.MarksGrow` | fs/ext2.c:855-869 | when the numbers taken grow, a bit is set exactly when it was set or its number is a new one |
| `Accounting.CountersTell` | fs/ext2.c:977-981 | there is a clear bit exactly while the counters do not add up to 0 |
| `Volumes.Volume.AllocateBlock` | fs/ext2.c:872-957 | succeeds exactly when a block is free, takes the first free one in cyclic order from the goal, adds its power of two to its byte of the bitmap and changes no other, and returns the block zero-filled |
| `Volumes.Volume.TakeInode` | fs/ext2.c:1107-1165 | the same for inodes, with the superblock counter and, for a directory, the directory count of the group |
| `Volumes.Volume.DeallocateBlock` | fs/ext2.c:1225-1288 | the bit to be reset is in the data range and set; its power of two is taken off its byte, both counters grow by one; block 0 is ignored |
| `Volumes.Volume.DeallocateInode` | fs/ext2.c:1351-1403 | the inode's own bit was set and is cleared, group and superblock counters grow by one, the directory count falls when the inode still says that it is one |
| `Tree.Graft` | fs/ext2.c:988-1046 | a grafted path keeps the invariant that every reachable block has one owner |
| `Tree.GraftAt` | fs/ext2.c:1012-1043 | after the graft every place of every file holds what it held, except the grown ones |
| `Tree.SharedIsNoTree` | fs/ext2.c:988-1046 | where two places hold one block no assignment of owners meets the invariant |
| `Tree.LeafWrite` | fs/ext2.c:1563-1564 | rewriting a data block moves no link of any file |
| `Tree.DropFile` | fs/ext2.c:1405-1422 | clearing a file's inode takes exactly that file's blocks out of the trees |
| `Contents.DataWrite` | fs/ext2.c:1563-1564 | bytes written to a file's block change that block of that file and no byte of any other file |
| `Contents.GraftBlockMap` | fs/ext2.c:988-1051 | after a graft the map from offsets to blocks has changed at one block of one file only |
| `FileHandles.LoadPath` | fs/ext2.c:699-760 | the level-by-level load caches each index block of the path and stops at the first missing one |
| `FileHandles.CursorInit` | fs/ext2.c:674-767 | the cursor is coherent at the new offset |
| `FileHandles.CursorNext` | fs/ext2.c:784-853 | all four ways to move the cursor leave it coherent at the new offset |
| `FileHandles.CursorIsWalk` | fs/ext2.c:1426-1443 | a coherent cursor answers what a walk from the inode answers, and the index blocks that exist form a prefix of the path |
| `FileHandles.CursorKept` | fs/ext2.c:784-853 | a cursor stays coherent across writes that leave its file's links alone |
| `FileHandles.ReadInode` | fs/ext2.c:405-452 | the handle is open on the inode, at offset 0, with the group's descriptor as it is on the device |
| `Grafting.MakePath` | fs/ext2.c:998-1029 | bottom up, one new block per missing level, each holding just the link to the one made before, each the first free one from the group of the file's inode on; where the free blocks give out, the block made last links to itself |
| `Grafting.Attach` | fs/ext2.c:1030-1043 | the path is hung on the lowest existing index block by one link, or on the inode's slot |
| `Grafting.GraftPath` | fs/ext2.c:983-1046 | with as many free blocks as the path is short of, exactly its places that held 0 are filled, with fresh blocks, and the counters fall by as many; with fewer, and only then, some block is held by two places |
| `Grafting.LoopedShared` | fs/ext2.c:1010-1043 | a path in which the block made last links to itself, however it is hung, makes two places of the file hold one block |
| `Grafting.AllocateNewDataBlock` | fs/ext2.c:960-1073 | with the guard failing nothing changes; otherwise one block of one file is mapped where none was, to the first free block from the group of the inode on, and its index blocks to the next ones; the cursor sees it, i_size, i_blocks and the free counter are right, other files and all bytes are untouched |
| `Grafting.CursorSeesNew` | fs/ext2.c:1049-1051 | the reloaded cursor answers with the new data block, so the assertion holds for every mode and number of missing levels |
| `Grafting.DataBlockPicked` | fs/ext2.c:983-991 | of the blocks a path is given the data block is taken first |
| `Grafting.GuardSuffices` | fs/ext2.c:977-981 | a hole is short of more than the one free block the guard asks for if and only if it needs an index block that is not there |
| `Teardown.DeallocateLevel` | fs/ext2.c:1290-1324 | frees exactly the blocks under the given place, each once; block 0 stops it and the level bounds the recursion |
| `Teardown.DeallocateDataBlocks` | fs/ext2.c:1326-1349 | frees exactly the data and index blocks of the file and empties the inode |
| `Teardown.RemoveFile` | fs/ext2.c:1405-1422 | the inode and exactly its blocks are free again, the counters grow by exactly their number, every other file reads as before |
| `Teardown.FileRemoved` | fs/ext2.c:1405-1422 | the invariants of all other files survive the removal of one |
| `FileIO.ReadFile` | fs/ext2.c:1446-1513 | returns exactly the requested slice of the content cut to the file's size, byte by byte, holes as zeros, and changes nothing |
| `FileIO.WriteFile` | fs/ext2.c:1516-1599 | the new content is the old one zero-extended and overwritten on [offset, offset + count); no other file changes; afterwards a place of a file holds a block exactly when it did before, then the same one, or lies on the path of a byte written; the new blocks are taken block by block and on each path upwards, each as the first free one from the group of the inode on |
| `FileIO.EnsureBlock` | fs/ext2.c:1546-1556 | after it the current offset has a block, in a hole the first free one from the group of the inode on, and no byte of any file has changed |
| `FileIO.PathComplete` | fs/ext2.c:1540-1556 | where the walk finds a block no level of its path is missing |
| `FileIO.InWritePlaces` | fs/ext2.c:1540-1556 | the places a write needs, gathered piece by piece, are those on the paths of the blocks its bytes lie in |
| `FileIO.TakenByGraft` | fs/ext2.c:998-1029 | the blocks of one graft stand on its path from the data block upwards in the order in which they were taken |
| `Spaces.PlacesMissing` | fs/ext2.c:977-1029 | finds exactly the places that a write at an offset would have to graft |
| `Spaces.WriteSpace` | fs/ext2.c:1516-1599 | finds exactly the places that a whole write would have to graft, a shared index block once |
| `NewInodes.AllocateNewInode` | fs/ext2.c:1085-1223 | fails exactly when no inode is free; otherwise the first free inode from the goal group on becomes a new empty file without links, its group's directory count grows by one for a directory, all others are untouched |
| `DirRecords.HeaderRewrite` | fs/ext2.c:1625-1628 | a header written back unchanged changes no byte |
| `DirRecords.PutRecordReads` | fs/ext2.c:1625-1647 | a written record reads back its header and its zero-padded name, and bytes outside it stay |
| `RecordBytes.EntryBytes` | fs/ext2.c:1602-1623 | a record read has its inode in bytes 0 to 3 and its rec_len in 4 and 5, low byte first, name_len in 6 and file_type in 7 |
| `RecordBytes.EncodeBytes` | fs/ext2.c:1625-1647 | a record written has them there too |
| `RecordBytes.MadeInside` | fs/ext2.c:1941-1998 | entering a name into room: which bytes change, and to what |
| `RecordBytes.MadeBehind` | fs/ext2.c:1945-1998 | entering a name behind the last record: the new block, and no other byte |
| `RecordBytes.GoneMerged` | fs/ext2.c:2104-2149 | unlinking inside a block: the record before has the sum of both lengths, the victim's bytes are 0, no other byte changes |
| `RecordBytes.GoneNull` | fs/ext2.c:2141-2146 | unlinking at the start of a block: a null record of the old length, no other byte changes |
| `RecordBytes.MadeKinds` | fs/ext2.c:1842-2011 | after an entry every record but the new one has an inode and a type that some record had |
| `RecordBytes.GoneKinds` | fs/ext2.c:2083-2151 | after an unlink every record has an inode and a type that some record had |
| `DirRecords.ReplaceSegment` | fs/ext2.c:1842-2011 | replacing records by others of the same total length replaces their names in the map and keeps all others |
| `DirRecords.InsertSplit` | fs/ext2.c:1941-1998 | splitting a record's slack keeps the tiling and adds exactly the new name to the map |
| `DirRecords.InsertAppend` | fs/ext2.c:1989-1998 | a record in a block of its own keeps the tiling, grows the directory by one block and adds exactly the new name |
| `DirRecords.AppendStart` | fs/ext2.c:1945-1967 | where no record has room the new one starts at the end of the directory, so the last record keeps its length |
| `DirRecords.CrossesBlock` | fs/ext2.c:2092-2102 | crosses_block holds if and only if the victim starts a block, and then the length written back is the old one |
| `DirRecords.DeleteMerge` | fs/ext2.c:2104-2149 | merging into the predecessor keeps the tiling and takes exactly the victim's name out of the map |
| `DirRecords.DeleteNull` | fs/ext2.c:2141-2146 | leaving a null record keeps the tiling and takes exactly the victim's name out of the map |
| `DirRecords.DotsAfterSplit` | fs/ext2.c:1968-1998 | inserting leaves "." and ".." where they are |
| `DirRecords.DotsAfterMerge` | fs/ext2.c:2104-2149 | unlinking another name leaves "." and ".." where they are |
| `DirStores.DirSolid` | fs/ext2.c:1998-2000 | a tiled directory has no holes, so rewriting a record allocates nothing |
| `DirStores.PutDirRecord` | fs/ext2.c:1625-1647 | the record stands in the content, exactly the blocks it was short of are taken, no other file changes |
| `Directories.Readdir` | fs/ext2.c:1602-1623 | returns the header and the name of the record and the offset of the next one |
| `Directories.LookupName` | fs/ext2.c:1664-1700 | finds a record exactly when the map has the name, with the inode the map gives and the offset of the record before it |
| `Directories.FindRoom` | fs/ext2.c:1900-1926 | finds the first record with enough slack, and without one ends on the last record |
| `Directories.PlaceBehind` | fs/ext2.c:1945-1994 | without room the new record gets exactly the block behind the directory |
| `Directories.InsertedOk` | fs/ext2.c:1842-2011 | in every case the new name leads to the new inode and all other lookups are as before; the size stays whole blocks |
| `Directories.InsertedIff` | fs/ext2.c:1842-2011 | what is left is a directory if and only if the name was new, which the code does not test |
| `Directories.InsertedBytes` | fs/ext2.c:1842-2011 | the record goes to the first record with enough to spare, or behind the last one, and no other byte changes |
| `Directories.FirstRoomFirst` | fs/ext2.c:1900-1926 | no record before the one found has room |
| `Directories.StoreEntry` | fs/ext2.c:1878-2000 | the content becomes the inserted one; blocks are taken only where no record had room |
| `Directories.SetLinks` | fs/ext2.c:2002-2003 | one link count changes, every file's content and every cursor stays |
| `Directories.CreateDirEntry` | fs/ext2.c:1842-2011 | fails exactly for names over 255 bytes, without a change; otherwise the directory holds the name, byte by byte where the code puts it, with file_type 1 for a mode with S_IFREG, 2 for one with S_IFDIR alone and 0 for others, and the file has one more link |
| `Unlinking.RewriteBefore` | fs/ext2.c:2087-2108 | the predecessor takes the victim's bytes over exactly when both are in one block, else nothing changes |
| `Unlinking.DropLink` | fs/ext2.c:2110-2137 | the file loses a link; with the last one its inode and exactly its blocks are freed |
| `Unlinking.FirstIsFirst` | fs/ext2.c:2083 | the record found is the first one exactly when the first record has the name |
| `Unlinking.WithoutIs` | fs/ext2.c:2139-2151 | in both the merge and the block-start case the name is gone and every other name leads where it led |
| `Unlinking.TiledUnlessFirst` | fs/ext2.c:2147-2151 | what is left is a directory if and only if the victim was not the first record |
| `Unlinking.Unlink` | fs/ext2.c:2065-2156 | succeeds exactly when the name is in the directory; name, link and, with the last link, the file are gone; which bytes of the directory change is said for a record inside a block, at the start of one and at the start of all; the re-read handle holds the up-to-date group descriptor |
| `Names.EnterKeeps` | fs/ext2.c:1998-2003 | entering a name keeps every link count equal to the number of names |
| `Names.RemoveKeeps` | fs/ext2.c:2117-2135 | so does removing one, and the file is released exactly when its last name goes |
| `Names.DismantleKeeps` | fs/ext2.c:2187 | so does unlinking the "." that is a directory's only record |
| `Names.DirectoryStays` | fs/ext2.c:2117 | a directory that has its dots never loses its last link to an unlink of a name that leads to it |
| `Names.EnterKeepsTypes` | fs/ext2.c:1857-1858 | after an entry every record of every directory tells the type of the file it names |
| `Names.RemoveKeepsTypes` | fs/ext2.c:2083-2151 | and so it does after an unlink |
| `Operations.CreatedKeeps` | fs/ext2.c:2016-2032 | a created file has one link, its name leads to it, the namespace invariant holds |
| `Operations.DotsMade` | fs/ext2.c:2057-2058 | the two entries made in an empty directory are "." with 12 bytes and ".." with the rest of the block |
| `Operations.MadeDirectoryKeeps` | fs/ext2.c:2036-2062 | a made directory is found, knows itself and its parent, and the invariant holds |
| `Operations.UnlinkedKeeps` | fs/ext2.c:2065-2156 | the invariant holds and the file is gone if and only if the name was its only one |
| `Operations.RemovedDirectoryKeeps` | fs/ext2.c:2158-2214 | the three unlinks take the name and both dots away, the invariant holds, and the inode goes exactly when no other directory names it |
| `Operations.RunKeeps` | fs/ext2.c:2016-2214 | over every run of create, mkdir, unlink, rmdir, write and failed create, in each state: every directory is tiled and has its dots, every name leads to a live inode, every link count is the number of records naming the inode, every record has the file type of its inode |
| `Namespace.CreateFile` | fs/ext2.c:2016-2032 | is the create transition, with the first free inode from the group of the parent on; fails exactly without a free inode, without a change, or with a name over 255 bytes, which marks that inode and changes no name |
| `Namespace.CreateDirectory` | fs/ext2.c:2036-2062 | is the mkdir transition, with the inode chosen so and its group's directory count up by one; fails exactly as create does, with the same loss |
| `Namespace.UnlinkFile` | fs/ext2.c:2065-2156 | is the unlink transition, bytes of the directory included; the file is released exactly when no name is left |
| `Namespace.LookupLast` | fs/ext2.c:1702-1727 | finds the record that ends the directory |
| `Namespace.TwoRecords` | fs/ext2.c:2184-2188 | a last record at byte 12 means that there are just "." and ".." |
| `Namespace.DirectoryMode` | fs/ext2.c:2042-2043 | S_IFDIR is set, S_IFREG is cleared, the lower bits of the mode stay |
| `Namespace.LastAgain` | fs/ext2.c:1842-2156 | a name entered into a directory with its last record at byte 12 and unlinked again leaves the last record there, so rmdir takes the directory |
| `Namespace.DirCountsBack` | fs/ext2.c:2208-2209 | after a mkdir and an rmdir the directory counts are what they were if and only if inode and parent are in one group |
| `Namespace.CountDirectoryDown` | fs/ext2.c:2208-2209 | writing the handle's cached descriptor back lowers the directory count of its group by one and keeps the free counters and the invariant |
| `Namespace.DeleteDirectory` | fs/ext2.c:2158-2214 | removes the directory if and only if its last record starts at byte 12, by the rmdir transition, with the directory count of the parent's group down by one; otherwise nothing changes |
| `Namespace.WriteNamed` | fs/ext2.c:1516-1599 | is the write transition on a file that is no directory |
| `Conservation.MarkedIsReachable` | fs/ext2.c:872-1073 | a block is marked exactly when it is reserved or some place of some live file holds it |
| `Conservation.BitIsReachable` | fs/ext2.c:855-957 | the same of the bit itself: the bit of a data block is set exactly when the block is reserved or reachable |
| `Conservation.FilesOnDevice` | fs/ext2.c:77-91 | with the blocks behind the device reserved, every block of a file lies on the device |
| `Conservation.ConservedAlways` | fs/ext2.c:872-1073 | reachable exactly when owned, no sharing, a block bit set exactly when reserved or owned and an inode bit exactly when live, superblock counters equal to group sums and free numbers, i_blocks equal to the blocks owned |
| `Conservation.CountersAgree` | fs/ext2.c:1061-1063 | superblock counters, sums of group counters and numbers of free blocks and inodes agree, and i_blocks counts each file's blocks |
| `Conservation.RoundTrip` | fs/ext2.c:2016-2156 | create, any number of writes and unlink restore the live inodes, the counts and all names; every block owned before keeps its owner, and what is owned besides is the directory's, as many blocks as the name was short of and the free counter is down by; a directory that could be removed before can be removed again |
| `Conservation.OwnersBack` | fs/ext2.c:1405-1422 | without the blocks a new file has come to, the owners are those of the moment its name was entered |
| `Conservation.AllocationRestored` | fs/ext2.c:855-957 | the inode bitmaps are then the same byte for byte, with their counters, and a block bit is set exactly when it was or its block is one of those gained; with none gained the block bitmaps and counters are the same too |
| `Conservation.CreateWriteUnlink` | fs/ext2.c:2016-2156 | the operations in a row do this on the volume itself, with any number of writes, each of which takes place and reads back exactly when the free blocks are enough for it; without a free inode nothing changes |
| `Runs.Execute` | fs/ext2.c:1516-2214 | a command is its transition of the namespace exactly when its guard holds, a new file gets the first free inode from its directory's group on, a write reads back as written, the directory counts change as the code changes them, and otherwise nothing changes |
| `Runs.RunAll` | fs/ext2.c:1516-2214 | over every sequence of commands, in every state: names and link counts are right, a block or inode bit is set exactly when it has to be, no block has two places, both superblock counters, the group counters and i_blocks are exact |
| `Tokenizer.InDelim` | libs32/klib.c:34-46 | true exactly for the bytes of the delimiter string, so never for NUL |
| `Tokenizer.ParseBuf` | libs32/klib.c:49-85 | finds exactly the maximal delimiter-free runs in order, up to the first one that ends at or behind len, ends each of them before len with a NUL in place, and changes nothing else |
| `Tokenizer.TokensUnique` | libs32/klib.c:49-85 | a string has one list of tokens |
| `Path.Components` | fs/ext2.c:1742-1746 | the components of a path are its tokens at "/" |
| `Path.CopyHandle` | fs/ext2.c:166-191 | the copy is open on the same inode at the same offset with a cursor of its own |
| `Path.GoalIsParent` | fs/ext2.c:1771-1778 | with PPE_FLAG_LOOKUP_PREVIOUS a path is followed to the directory in which its last component has to be looked for |
| `Path.ResolveSplit` | fs/ext2.c:1780-1818 | resolving a path in two stages is resolving it at once |
| `Path.ParsePath` | fs/ext2.c:1732-1836 | succeeds exactly when the left fold of lookups is defined, which a regular file before the last place prevents, and returns that inode |
| `RingList.Holder.Prepend` | libs/lists.h:17-33 | cons |
| `RingList.Holder.Append` | libs/lists.h:36-50 | snoc |
| `RingList.Holder.InsertBefore` | libs/lists.h:52-65 | the new element takes the place of the anchor, and the head moves when the anchor was first |
| `RingList.Holder.InsertAfter` | libs/lists.h:68-77 | the new element follows the anchor and the head stays |
| `RingList.Holder.Delete` | libs/lists.h:80-98 | the element is gone, and the holder is empty exactly when it was the last one |
| `RingList.RingIn` | libs/lists.h:28-31 | four pointer updates between two neighbours make a ring of one more element |
| `RingList.RingOut` | libs/lists.h:90-95 | two pointer updates make a ring of one element less |
| `RingList.Steps` | libs/lists.h:102-113 | k steps through next from the head lead to element k, around the ring |
| `BlockDevice.Device.Read` | fs/vfs.c:137-196 | returns exactly the requested run of the flat image at any alignment |
| `BlockDevice.Device.Write` | fs/vfs.c:203-269 | replaces exactly that run of the image, with a sector read first where it is not overwritten in full |
| `BlockDevice.FlatWrite` | fs/vfs.c:246-249 | bytes patched into one sector are bytes patched into the image |
| `BlockDevice.OverlayJoin` | fs/vfs.c:257-262 | two adjacent writes are one write |
| `BlockDevice.WriteThenRead` | fs/vfs.c:137-269 | what is written in two pieces reads back in one |
| `Witnesses.LastBitBehindDevice` | fs/ext2.c:77-91 | a layout of 64 blocks whose last bit names block 64 |
| `Witnesses.LastBitReserved` | fs/ext2.c:77-91 | a mounted volume of that layout on which the bit is preset, so that no file gets block 64 |
| `Witnesses.TwoShort` | fs/ext2.c:977-981 | a file without blocks is short of two at block 12 |
| `Witnesses.OneBlockLeft` | fs/ext2.c:998-1029 | a volume with one free block on which allocate_new_data_block leaves a block in two places |
| `Witnesses.NameTwice` | fs/ext2.c:1842-2011 | "." entered once more in a new directory leaves no directory |
| `Witnesses.FirstRecordFound` | fs/ext2.c:2147-2151 | in the directory that create_directory_ext2 leaves "." is found at byte 0, and without it there is no directory |
| `Witnesses.EmptyButNotRemoved` | fs/ext2.c:2184-2193 | a new directory that is given two hundred names, all unlinked again, has just its dots and its last record is not at byte 12 |
| `Witnesses.LongFile` | fs/ext2.c:2016-2032 | create_file_ext2 with a name of 256 bytes fails and marks one inode more |
| `Witnesses.LongDirectory` | fs/ext2.c:2036-2062 | so does create_directory_ext2 |
| `Witnesses.LongNames` | fs/ext2.c:2016-2062 | a volume of 8 inodes with one directory on which three inodes are marked after one of each |

## Left out

- Descriptors, inodes and the superblock are records, not bytes of device blocks; their offsets are proved disjoint where the inode tables of different groups lie apart, which the layout does not ask for, and the bitmaps are sequences per group. File data, index blocks and directory records are bytes.
- Time stamps, flags, owners, permissions and every inode field but mode, size, links, i_blocks and i_block; symbolic links, sockets and device nodes.
- Transfers between device and memory succeed in full. Short reads and the error codes of the drivers are not handled coherently by the code and not modelled.
- Running out of space in the middle of an operation. A direct block is then entered as 0; an indirect path keeps the number of the block made before, and what that leaves on the device is proved (`Grafting.GraftPath`), but nothing after it, where the free counter goes below 0 and wraps around. The operations on files and directories ask for the blocks they need.
- `Grafting.AllocateNewDataBlock`: asks for as many free blocks as the path is short of, unless there is none at all.
- `FileIO.WriteFile`: asks for as many free blocks as the write is short of.
- `FileIO.EnsureBlock`: the same, as a part of it.
- `Namespace.WriteNamed`: the same, as it is that write.
- `Conservation.CreateWriteUnlink`: a write for which the free blocks are not enough is left out of the series, where the code would go on; the name is one that can be entered.
- `Runs.RunAll`: likewise commands whose guards fail, which the code does not make, are skipped; a command does not write to a directory as a file, and rmdir skips a name that leads to a regular file.
- Several live handles on one inode; the code re-reads an inode after another handle has changed it, and the model does the same where the code does.
- The second cursor `it_end`, which nothing reads.
- `Grafting.AllocateNewDataBlock`: says what changes, not what is returned; the code's result stays -1 on success, as does that of delete_directory_ext2, where the model returns whether a directory was removed.
- The sum of `bg_used_dirs_count` over all groups: each change of a count is stated, but remove_file_ext2 clears the mode before deallocate_inode looks at it, so a directory removed by its last unlink stays counted.
- `Directories.CreateDirEntry`: names of exactly 255 bytes are excluded, because readdir_ext2 then writes one byte behind its 255-byte buffer; so are the empty name, names with a NUL and names the directory already has (what those do is `Directories.InsertedIff`), none of which the code tests for. Link counts stay below 65536.
- `Namespace.CreateFile`: takes a name over 255 bytes or one that can be entered, as `Directories.CreateDirEntry` does.
- `Namespace.CreateDirectory`: the same, with a free block left for the new directory.
- `Directories.LookupName`: takes a non-empty name. A null record has name length 0, as the code leaves it.
- `Unlinking.Unlink`: asks that the named inode is allocated with a positive link count and that the directory does not vanish with its own last link.
- `Namespace.UnlinkFile`: "." and ".." are excluded. Taking "." away leaves a directory whose first record has length 0, in which the next lookup does not end.
- `Namespace.DeleteDirectory`: the name, when present, leads to a directory other than the one it is in; the code reads a regular file as if it were records.
- `Path.ParsePath`: every name leads to a regular file or to a directory, and with PPE_FLAG_LOOKUP_PREVIOUS there is at least one component; the 32 slots of argv are not counted.
- `Layout.LastBitOnDevice`: the device is taken to have s_blocks_count + s_first_data_block blocks, so that the allocator's last block exists.
- `num_block_groups` counts one group too many when s_first_data_block is 1 and s_blocks_count is 1 modulo the group size; `Geometry.Ok` takes that group, which has no block on the device, to exist.
- Bits of data blocks that are set from the start belong to no file and stay set (`reserved`); what they are set for is not modelled.
- Names stored by other programs beyond what `DirOk` says: null records with a name left in them, records of inode 0 in front of others with the same name.
- The shell, command table, printing, display functions, randomized tests, memory allocation, and the function-pointer tables of the drivers.
