# Tuner drivers and stream tools, verified

The repository holds drivers for ISDB-S/T tuner boards and tools for the
transport streams they deliver. This project models its algorithms in Dafny
and proves what they promise: that no byte of a stream is lost, doubled or
delivered unfinished, that lists the hardware walks are closed, that encoders
can be undone, that rewritten tables are sound, and that repaired clocks do not
jump. Code that changes things step by step is modelled as classes and methods
over arrays; each method is proved against a function on values, and the
properties are lemmas about those functions or invariants every method keeps.

| file | system part |
|---|---|
| `SectionDecoder.dfy`, `SectionStream.dfy`, `SectionLoss.dfy`, `SectionRepeat.dfy` | PSI section reassembly, `apps/dvb/cmds/section.c` |
| `SectionSyntax.dfy` | what a section is (section 2.4.4.10 of ISO/IEC 13818-1), for the same |
| `TsHeader.dfy` | the header of a packet (section 2.4.3.2 of ISO/IEC 13818-1) as each tool reads it |
| `TsRing.dfy` | the PT3 block ring and its two readers |
| `DmaDescriptors.dfy` | the PT3 descriptor list, both drivers |
| `DmaStream.dfy` | the two together: where the board writes its stream |
| `Descrambler.dfy`, `Pxq3pe.dfy` | the PX-Q3PE stream path, both drivers |
| `I2cProgram.dfy` | the PT3 I2C instruction stream, both drivers |
| `Crc32.dfy` | CRC-32/MPEG-2 (Annex A of ISO/IEC 13818-1), bitwise and by table |
| `Pat.dfy`, `PatSize.dfy`, `FixPat.dfy`, `Splitter.dfy` | rebuilding the programme association table, and the packet splitter |
| `Restamp.dfy`, `RestampOut.dfy`, `RestampWrap.dfy` | timestamp repair (sections 2.4.3.5 and 2.4.3.7 of ISO/IEC 13818-1) |
| `Pll.dfy` | the TDA2014x PLL arithmetic |
| `RecorderQueue.dfy` | the queue of the recorder |
| `Gray.dfy` | the error counter of the PT3 |
| `Octets.dfy`, `Arith.dfy` | strings, optional values, and facts about strings and quotients |

`dafny verify dfyconfig.toml` checks everything.

## What the code does not keep

Some things one would expect are not so; the code is modelled as it is, with a
lemma that shows the case and the exact condition.

- A section that starts in the last two bytes of a packet is lost by
  `doSection` (`SectionLoss.TailStartLoses`). The receiver is in step with the
  sender after a packet if and only if none starts there
  (`SectionStream.Started`), and throughout a whole run if and only if none
  ever does (`SectionStream.StaysInStep`). Out of step it may still deliver all
  that was sent, when a stale buffer happens to begin like the section that was
  lost (`SectionLoss.TailStartMadeGood`).
- Section 2.4.3.3 of ISO/IEC 13818-1 lets a packet be sent twice in a row, and
  `doSection` takes the second one for a new packet: whole sections in it are
  delivered again (`SectionRepeat.TwiceDelivered`), and an unfinished one is
  given up. The second packet does no harm if and only if it starts one section
  and nothing else and leaves it unfinished, or carries on a section and leaves
  none unfinished (`SectionRepeat.Repeated`, and `SectionRepeat.RepeatsExactly`
  over a whole run).
- A read of the PT3 device that fails at its second copy or later has used up
  what it copied before and returns none of it. The callers get all that was
  used up if and only if every failing call fails at its first copy
  (`TsRing.Ring.Session`).
- `pt3_dma_build_page_descriptor` gives up when a descriptor page is filled to
  its last byte; `DmaDescriptors.DescPages.Build` states when it completes, for
  every page size.
- `RecreatePat` has room for 41 chosen services (`Pat.FitsIs`), and a legal table
  of one packet can list 42, all of them chosen (`PatSize.MayNotFit`).
- `RecreatePat` replaces only the low byte of the section length, so the
  length is right exactly when the upper four bits were zero
  (`Pat.RebuiltIsSound`).
- The continuity counter of `split_ts` sticks at 0xff if the rebuilt table
  starts out with a flag nibble of 0xf (`Splitter.CountersStep`).
- `enqueue` can drop a buffer although there is room, because the exit flag is
  tested before the queue is looked at again (`RecorderQueue.DropsWithRoom`).
  The queue is full after a drop if and only if in the last wait as many buffers
  went in as came out (`RecorderQueue.GivesUpUnready`); with room on entry
  nothing is dropped (`RecorderQueue.ReadyOnEntry`).
- `pt3_i2c_xfr` copies from the start of the reply for every message that
  reads, so every message gets its own bytes if and only if no second one reads
  any (`I2cProgram.ServesOneRead`).
- In `restamp.c` a repaired value is not reduced to the circle, so a repair can
  leave the 64-bit word. References never jump if and only if none does
  (`Restamp.RunIsSmooth`). That happens: references that keep going round
  almost a whole turn leave the word before there are 24 million of them
  (`RestampWrap.WrapIsReached`), in a stream of as many packets
  (`RestampWrap.SomeStreamJumps`); up to seven million references and stamps,
  in however many packets, none can (`Restamp.ShortStreamIsSmooth`). With an
  original clock reference in the adaptation field the code reads one byte
  late; the model reads there too, and the theorem holds for whatever is read.
  One of the six reserved bits of a reference written back is zero
  (`Restamp.PcrReadsBack`).
- From 2^30 kHz on the product of divider and frequency in `tda2014x_tune`
  wraps, and the set of accepted frequencies is another one (`Pll.Tunable`).

`1000UL` in `tda2014x.c` and `1UL << 32` in `restamp.c` are taken as 64-bit
words, as on a 64-bit system; with 32-bit words they wrap much earlier.

## Model

| member | source | states |
|---|---|---|
| SectionDecoder.SecBuf.FillPrevious | apps/dvb/cmds/section.c:132-151 | the rest of an unfinished section is taken only with the next continuity count; the section is delivered once when complete, and a gap gives it up |
| SectionDecoder.SecBuf.StartOne | apps/dvb/cmds/section.c:155-178 | one section is started, with its length taken from its header; it is delivered if it is whole, kept if cut off, dropped if too long |
| SectionDecoder.SecBuf.DoSection | apps/dvb/cmds/section.c:108-181 | the buffer, the callbacks and their summed results are those of the packet step on values |
| SectionStream.StartArea | apps/dvb/cmds/section.c:153-178 | of the sections that start in a packet all that end there are delivered in order; the last is taken up exactly when three bytes of it are there |
| SectionStream.Continued | apps/dvb/cmds/section.c:132-151 | a packet in which no section starts keeps the receiver holding exactly what was sent of the section |
| SectionStream.Started | apps/dvb/cmds/section.c:108-181 | after a packet in which sections start the receiver is in step with the sender if and only if none starts in its last two bytes |
| SectionStream.RoundTrip | apps/dvb/cmds/section.c:108-181 | for every legal stream that sends each packet once and starts no section in the last two bytes of one, with any adaptation fields and pointer fields, each section is delivered once, in order, byte for byte |
| SectionStream.PacketiseIsLegal | apps/dvb/cmds/section.c:108-181 | the packetiser's stream is legal, starts no section in the last two bytes and sends everything |
| SectionStream.PacketiserUndone | apps/dvb/cmds/section.c:108-181 | reassembly undoes packetising for every list of sections that fit the buffer |
| SectionStream.StaysInStep | apps/dvb/cmds/section.c:108-181 | over a whole run the receiver is in step before, between and after the packets if and only if no section ever starts in the last two bytes of one |
| SectionLoss.GapIsNoticed | apps/dvb/cmds/section.c:132-139 | a wrong continuity count inside a section delivers nothing and marks the section broken |
| SectionLoss.HeardAfterLoss | apps/dvb/cmds/section.c:132-178 | the first packet after a loss of fewer than 16, inside a section or between two: either its count gives the loss away and nothing is delivered, or it begins with a section start and the receiver is in step again |
| SectionLoss.Recovers | apps/dvb/cmds/section.c:108-181 | once the count is found broken reception resumes at the next start of a section and nothing after it is lost, doubled or damaged |
| SectionLoss.LossOnlyOmits | apps/dvb/cmds/section.c:108-181 | whichever packets of such a stream, which sends each packet once, are lost, fewer than 16 in a row, only sections that were sent are delivered, undamaged, in order and at most once |
| SectionLoss.TailStartLoses | apps/dvb/cmds/section.c:155-178 | two legal packets in which the section that starts in the last two bytes is never delivered |
| SectionLoss.TailStartMadeGood | apps/dvb/cmds/section.c:132-178 | three legal packets in which a section starts in the last byte of one and all that was sent is delivered nevertheless |
| SectionRepeat.Repeated | apps/dvb/cmds/section.c:132-178 | the second of two equal packets in a row delivers nothing and leaves the receiver in step, if and only if it starts one section and nothing else and leaves it unfinished, or carries on a section and leaves none unfinished |
| SectionRepeat.RepeatsExactly | apps/dvb/cmds/section.c:108-181 | over a whole run in which any packets come twice the receiver stays in step and delivers nothing again, if and only if only such packets come twice and no section starts in the last two bytes of one |
| SectionRepeat.RoundTripRepeated | apps/dvb/cmds/section.c:108-181 | and then each section is still delivered once, in order |
| SectionRepeat.TwiceDelivered | apps/dvb/cmds/section.c:132-178 | a legal packet with one short section that is delivered twice when the packet is |
| SectionSyntax.LengthReads | apps/dvb/cmds/section.c:158 | the length is the twelve bits below the four upper ones of its bytes, and three more, whatever those four are |
| SectionSyntax.SectionIsBuilt | apps/dvb/cmds/section.c:153-163 | every section a receiver can take is made of a table number other than 0xff, four upper bits and contents that fit |
| SectionSyntax.BuiltIsSection | apps/dvb/cmds/section.c:153-163 | and everything so made is one |
| SectionSyntax.ContentsArrive | apps/dvb/cmds/section.c:108-181 | any contents that fit come out again when they are put into sections and those into packets |
| SectionSyntax.TooLong | apps/dvb/cmds/section.c:158-166 | a section longer than the buffer is dropped with what follows it in the packet, and the next start is waited for |
| TsHeader.SectionReads | apps/dvb/cmds/section.c:111-130 | for every header: payload and no error, section start, count and place of the payload |
| TsHeader.SectionIgnores | apps/dvb/cmds/section.c:116-117 | a packet without a payload or with the error mark changes nothing and delivers nothing |
| TsRing.Ring.Reset | drivers/video/pt3_dtv.c:2576-2589 | every block is marked empty and the reader stands at the first |
| TsRing.Ring.Ready | drivers/video/pt3_dtv.c:2626-2649 | the sentinel of the next block tells exactly whether the FPGA has begun it, which means the current one is finished |
| TsRing.Ring.Take | drivers/video/pt3_dtv.c:2683-2707 | the bytes handed out are the next ones of the oldest finished block, and a used-up block goes back to the FPGA |
| TsRing.Ring.Copy | drivers/video/pt3_dtv.c:2651-2714 | one call, with the FPGA writing meanwhile, uses up the next delivered bytes; it returns their number, and a short one means every block finished before was delivered; or it fails at exactly the copy that fails, behind that many whole blocks, having used up nothing if and only if that was its first copy |
| TsRing.Ring.Session | drivers/video/pt3_dtv.c:2576-2714 | for every sequence of calls, failures and FPGA writes what was used up is a prefix of the blocks the FPGA is done with, and the callers got all of it if and only if every call that failed did so at its first copy |
| TsRing.Ring.ThreadTurn | drivers/media/pci/ptx/pt3_pci.c:244-258 | one turn of the other driver's thread hands on the oldest block whole if the next one has begun, and nothing otherwise |
| TsRing.Ring.SwitchOn | drivers/media/pci/ptx/pt3_pci.c:220-223 | every block is marked empty and the thread stands at the first |
| TsRing.Ring.Thread | drivers/media/pci/ptx/pt3_pci.c:214-260 | over any number of turns the demultiplexer gets whole blocks, a prefix of those the FPGA is done with |
| TsRing.Ring.OutIsFinished | drivers/video/pt3_dtv.c:2576-2714 | whatever was delivered is a prefix of the finished blocks, with nothing from the one the FPGA is still writing |
| TsRing.Ring.CellInTurn | drivers/video/pt3_dtv.c:2626-2707 | at every moment the FPGA's next byte belongs to the block and the place that the number of bytes written so far gives, counting round |
| DmaDescriptors.FlagsComeOff | drivers/video/pt3_dtv.c:2417-2429 | or-ing in the flags loses nothing of aligned addresses, and only the end mark reads as an end |
| DmaDescriptors.FlagsAreSet | drivers/video/pt3_dtv.c:2417-2429 | the flag bits are set and no bit above them changes |
| DmaDescriptors.DescPages.AddrsDiffer | drivers/video/pt3_dtv.c:2498-2544 | no two descriptors of disjoint pages have the same bus address |
| DmaDescriptors.DescPages.WalkIsForced | drivers/video/pt3_dtv.c:2417-2429 | the words in memory allow the FPGA one walk only |
| DmaDescriptors.DescPages.LinkedAll | drivers/video/pt3_dtv.c:2417-2429 | following the stored words from the first descriptor visits exactly the listed pages in order |
| DmaDescriptors.DescPages.Place | drivers/video/pt3_dtv.c:2498-2544 | one page more gets its descriptor and is chained behind the others, across descriptor pages |
| DmaDescriptors.DescPages.Build | drivers/video/pt3_dtv.c:2431-2553 | it completes if and only if the slots suffice and no page is filled to its last byte; then the walk visits every page of every block in order and returns to the first descriptor or ends |
| DmaDescriptors.DescPages.RingIsClosed | drivers/media/pci/ptx/pt3_pci.c:356-379 | at every moment of the loop the descriptors so far are a closed ring in page order |
| DmaDescriptors.DescPages.AddPage | drivers/media/pci/ptx/pt3_pci.c:361-378 | every turn keeps that ring and stays inside the allocated pages |
| DmaDescriptors.DescPages.Create | drivers/media/pci/ptx/pt3_pci.c:320-381 | the finished ring walks every page of every block and comes back |
| DmaDescriptors.RoundupIsEnough | drivers/media/pci/ptx/pt3_pci.c:343-344 | roundup is the least multiple of a page of descriptors that suffices, so that many descriptors fill just enough pages; taken as the number of pages it is always enough, and far more than its comment says |
| DmaDescriptors.BlocksArePackets | drivers/media/pci/ptx/pt3_pci.c:328-331 | a block is 1020 whole packets, and a page of descriptors as many as fit |
| DmaStream.GoesRound | drivers/video/pt3_dtv.c:2417-2553 | a closed list is walked any number of times |
| DmaStream.ByteInBlock | drivers/video/pt3_dtv.c:2431-2553 | going round the pages of equal blocks, byte x of the stream comes to its place in block x / size, counting round |
| DmaStream.TsPagesLay | drivers/video/pt3_dtv.c:2431-2553 | the pages of the one driver's list lie block after block |
| DmaStream.RingPagesLay | drivers/media/pci/ptx/pt3_pci.c:356-379 | and those of the other's |
| DmaStream.BoardFillsRing | drivers/video/pt3_dtv.c:2431-2707 | a board that follows the closed list page after page puts its next byte at the address of the very cell the ring's readers expect it in |
| Descrambler.SelfInverse | drivers/video/pxq3pe_dtv.c:1285-1298 | descrambling twice gives the original back |
| Descrambler.Apart | drivers/media/pci/ptx/pxq3pe_pci.c:391-397 | runs of whole packets can be descrambled in any portions |
| Descrambler.KeyBytes | drivers/media/pci/ptx/pxq3pe_pci.c:28-29 | the key bytes the default tables of the one driver give are those the other writes out |
| Descrambler.UnrolledPacket | drivers/video/pxq3pe_dtv.c:1286-1297 | the unrolled loop leaves the header alone, stops on the packet boundary and combines every other byte with its key byte |
| Descrambler.TablePacket | drivers/media/pci/ptx/pxq3pe_pci.c:392-396 | the table-driven loops do the same with the key the tables give |
| Descrambler.UnrolledAll | drivers/video/pxq3pe_dtv.c:1285-1298 | the whole buffer is descrambled, each packet once |
| Descrambler.TableAll | drivers/media/pci/ptx/pxq3pe_pci.c:391-397 | the same function for the table-driven form, in place from any byte on, and nothing around it changes |
| Pxq3pe.Slide | drivers/media/pci/ptx/pxq3pe_pci.c:322-343 | writing round from the stop index slides the window of the ring on |
| Pxq3pe.Adap.PutStream | drivers/media/pci/ptx/pxq3pe_pci.c:322-343 | the ring then holds the last bytes of what it held followed by the new data; stop, start and count stay consistent and whole packets |
| Pxq3pe.AccountPut | drivers/media/pci/ptx/pxq3pe_pci.c:322-343 | what was drained stays whole packets of all that was put, in order and none twice, when more is put and the oldest is overwritten; only the excess is lost |
| Pxq3pe.AccountDrop | drivers/media/pci/ptx/pxq3pe_pci.c:399-400 | and when the oldest packets held are drained |
| Pxq3pe.Adap.Accept | drivers/video/pxq3pe_dtv.c:1191-1199 | one more packet has arrived; only a spill into a full ring loses bytes, and exactly the excess |
| Pxq3pe.Adap.Drop | drivers/media/pci/ptx/pxq3pe_pci.c:399-400 | draining takes the oldest bytes and keeps the rest |
| Pxq3pe.Adap.NoGap | drivers/video/pxq3pe_dtv.c:1159-1179 | without an overflow what was drained and what is kept is exactly what arrived; with one what was drained is still whole packets of what arrived, at ascending places |
| Pxq3pe.Adap.Read | drivers/video/pxq3pe_dtv.c:1264-1304 | a read returns whole packets, the oldest, each descrambled once and with its sync byte, or nothing |
| Pxq3pe.Adap.ThreadTurn | drivers/media/pci/ptx/pxq3pe_pci.c:371-403 | the thread descrambles in place up to the end of the buffer, hands that on and drops it |
| Pxq3pe.TaggedIs | drivers/media/pci/ptx/pxq3pe_pci.c:350-358 | the tuners 0 to 3 on the second port, and 4 to 7 on the first, are given exactly the packets tagged 0xc7, 0x47, 0x07 and 0x87, in order |
| Pxq3pe.TaggedNone | drivers/media/pci/ptx/pxq3pe_pci.c:350-358 | a tuner without a tag on the port is given nothing |
| Pxq3pe.Card.ShareIs | drivers/video/pxq3pe_dtv.c:1185-1199 | that is its share of a buffer if it is on, and otherwise it has none |
| Pxq3pe.Card.Irq | drivers/video/pxq3pe_dtv.c:1185-1200 | every tuner that is on gets exactly the packets with its tag, in order, with sync restored, and nothing is read |
| Pxq3pe.Card.DrainBy | drivers/media/pci/ptx/pxq3pe_pci.c:371-403 | a turn of a tuner's thread hands on what it drains, descrambled once, and no other tuner notices |
| Pxq3pe.Card.Run | drivers/video/pxq3pe_dtv.c:1148-1304 | over every sequence of interrupts, reads and thread turns what has arrived for a tuner is what was tagged for it; what its readers got is what was drained meanwhile, descrambled once; all that was drained is whole packets of what arrived, in order and none twice, and the first of them if nothing was lost |
| I2cProgram.ByteRoundTrip | drivers/video/pt3_dtv.c:446-460 | a byte reads back from its nine instructions |
| I2cProgram.RoundTrip | drivers/video/pt3_dtv.c:428-527 | every list of transfers reads back from the packed program bytes |
| I2cProgram.Bus.Add | drivers/video/pt3_dtv.c:384-402 | instructions are packed two to a byte; the one that fills the buffer is stored but sends the position back |
| I2cProgram.Bus.Read | drivers/video/pt3_dtv.c:462-488 | every byte read is acknowledged but the last |
| I2cProgram.Bus.TcWrite | drivers/video/pt3_dtv.c:745-776 | the program of a register write |
| I2cProgram.Bus.TcRead | drivers/video/pt3_dtv.c:778-817 | the program of a register read, with its repeated start |
| I2cProgram.Bus.Finish | drivers/video/pt3_dtv.c:520-527 | the padding always completes the last byte |
| I2cProgram.Xfer.Shoot | drivers/media/pci/ptx/pt3_pci.c:118-127 | the half-full byte and the memory hold the instructions so far |
| I2cProgram.Xfer.CopyBack | drivers/media/pci/ptx/pt3_pci.c:182-185 | every message that reads is given the reply from its start |
| I2cProgram.Xfer.Run | drivers/media/pci/ptx/pt3_pci.c:153-188 | unsupported lists are refused untouched; otherwise the memory holds the packed program of the messages, and without an error the messages that read have been given their bytes |
| I2cProgram.ServesOneRead | drivers/media/pci/ptx/pt3_pci.c:182-185 | whatever is read every message gets the bytes read for it, if and only if no second message reads any |
| I2cProgram.MessagesRoundTrip | drivers/media/pci/ptx/pt3_pci.c:118-179 | every list of messages reads back as its transfers |
| I2cProgram.MeaningKept | drivers/media/pci/ptx/pt3_pci.c:159-170 | a transfer means the message if and only if the address has seven bits and a message with the read bit is a plain read or empty |
| I2cProgram.SameProgram | drivers/video/pt3_dtv.c:745-817 | both drivers compile the same write and the same read to the same program |
| I2cProgram.KnownProgram | drivers/video/pt3_dtv.c:778-817 | the end of the program of a register read, and the two transfers of a certain one |
| I2cProgram.KnownSelect | drivers/video/pt3_dtv.c:360-460 | the first of those transfers, instruction by instruction |
| I2cProgram.KnownReply | drivers/video/pt3_dtv.c:360-488 | the second, which reads two bytes |
| I2cProgram.PackedAt | drivers/video/pt3_dtv.c:384-402 | instruction 2k is the lower half of byte k and the next one the upper |
| I2cProgram.WriteAgrees | drivers/video/pt3_dtv.c:745-776 | for a register write the buffer of the one driver and the memory the other writes hold the same bytes |
| I2cProgram.ReadAgrees | drivers/video/pt3_dtv.c:778-817 | and for a register read |
| Crc32.ShiftLinear | apps/dvb/cmds/fixpat.c:12-55 | shifting the register is linear |
| Crc32.EightBits | apps/cdev/recpt1/tssplitter_lite.c:790-810 | eight turns of the bit loop feed one byte |
| Crc32.GetCrc32 | apps/cdev/recpt1/tssplitter_lite.c:775-813 | the bitwise loop computes the CRC |
| Crc32.TableIsRight | apps/dvb/cmds/fixpat.c:11-55 | each of the 256 table entries is the remainder it should be |
| Crc32.CalcCrc32 | apps/dvb/cmds/fixpat.c:57-68 | the table-driven loop computes the same CRC |
| Crc32.Residue | apps/dvb/cmds/fixpat.c:104-108 | the CRC of a string with four bytes appended is zero if and only if they are its big-endian CRC |
| Crc32.Preset | apps/cdev/recpt1/tssplitter_lite.c:784-810 | for four bytes or more the CRC is the remainder, from a register of zeros, of the string with its first four bytes complemented |
| Crc32.KnownValue | apps/dvb/cmds/fixpat.c:57-68 | the CRC of one zero byte |
| Pat.Prescan | apps/cdev/recpt1/tssplitter_lite.c:427-438 | the first scan returns the services of all entries but the NIT, never more than there is room for |
| Pat.SlotsAscend | apps/cdev/recpt1/tssplitter_lite.c:637-649 | walking the positions by PID lists the chosen entries in ascending PID order |
| Pat.RebuiltLists | apps/cdev/recpt1/tssplitter_lite.c:605-678 | scanning the rebuilt table returns exactly the chosen services, in ascending PID order |
| Pat.RebuiltIsSound | apps/cdev/recpt1/tssplitter_lite.c:651-676 | the rebuilt section has zero residue where its length byte ends it; the twelve-bit length agrees if and only if its upper bits were zero |
| Pat.RebuiltHead | apps/cdev/recpt1/tssplitter_lite.c:605-678 | the header of the packet and of the section is kept but for the length; the NIT entry follows, and behind the CRC there is stuffing |
| TsHeader.EntryReads | apps/cdev/recpt1/tssplitter_lite.c:427-438 | an entry is read as its service and the lower thirteen bits of its PID field |
| TsHeader.SplitterReads | apps/cdev/recpt1/tssplitter_lite.c:818-822 | the PID of a packet is read for every header |
| Pat.FillSection | apps/cdev/recpt1/tssplitter_lite.c:621-652 | the loops over the PIDs build the data of the CRC |
| Pat.RecreatePat | apps/cdev/recpt1/tssplitter_lite.c:605-678 | the allocated packet is the rebuilt table of any choice that fits; without memory there is an error and no packet |
| PatSize.MayNotFit | apps/cdev/recpt1/tssplitter_lite.c:615-654 | a legal table of one packet, with zero residue, whose 42 services are all chosen and do not fit |
| FixPat.FirstMatch | apps/dvb/cmds/fixpat.c:89-92 | the search stops at the first entry of the service |
| FixPat.EndsInReach | apps/dvb/cmds/fixpat.c:88-92 | a section that ends in its packet can be searched for anything without reading behind the packet |
| FixPat.LocateFinds | apps/dvb/cmds/fixpat.c:76-86 | for every header, adaptation field, pointer byte and end of an earlier section the table behind them is found where it starts, if and only if the header allows it and more than sixteen bytes are left |
| FixPat.FoundIsFramed | apps/dvb/cmds/fixpat.c:76-86 | a packet in which something is found consists of those parts |
| TsHeader.FixPatReads | apps/dvb/cmds/fixpat.c:78-84 | for every header: no error, a section start and a payload are asked for, and the pointer byte lies behind the adaptation field |
| TsHeader.LengthReads | apps/dvb/cmds/fixpat.c:88-89 | the section length is the lower twelve bits |
| FixPat.RewritePat | apps/dvb/cmds/fixpat.c:70-115 | broken packets and tables without the service are left as they are; otherwise the packet is rewritten in place; a section may be longer than its packet if the search ends in it |
| FixPat.RewriteIsSound | apps/dvb/cmds/fixpat.c:100-109 | a rewritten packet has a 16-byte section with zero residue, its header and flags kept, its one entry the found one, and stuffing behind |
| FixPat.RewrittenTwice | apps/dvb/cmds/fixpat.c:70-115 | rewriting again for the service changes nothing, and no other service is found |
| FixPat.RecorderAgrees | apps/dvb/cmds/fixpat.c:100-109 | the recorder's scan reads the rewritten table as that one service |
| Splitter.NextSteps | apps/cdev/recpt1/tssplitter_lite.c:332-341 | when one count follows another by one |
| Splitter.CountersStep | apps/cdev/recpt1/tssplitter_lite.c:331-341 | the counters of the tables sent step by one modulo 16 with the flags kept for ever if and only if the flag nibble is not 0xf |
| Splitter.OutputIs | apps/cdev/recpt1/tssplitter_lite.c:325-383 | the output is the input in order: the same bytes of every packet marked when it comes, for every table the rebuilt one with the next count, of the others nothing |
| Splitter.MarksAre | apps/cdev/recpt1/tssplitter_lite.c:352-383 | the marks in force are those made by the last scan of a programme map, or the old ones |
| Splitter.FirstTable | apps/cdev/recpt1/tssplitter_lite.c:331-346 | the first table sent is the rebuilt one as it is |
| Splitter.NextTable | apps/cdev/recpt1/tssplitter_lite.c:331-346 | two successive tables differ in the counter alone, by one step |
| Splitter.TableSays | apps/cdev/recpt1/tssplitter_lite.c:331-346 | whichever count it is sent with, a table keeps its section and what a scan finds in it |
| Splitter.RebuiltSays | apps/cdev/recpt1/tssplitter_lite.c:605-678 | the rebuilt table lists exactly the chosen services, by PID, and its section has zero residue |
| Splitter.ShownSays | apps/cdev/recpt1/tssplitter_lite.c:325-346 | and so does every table that is put out |
| Splitter.AfterAppend | apps/cdev/recpt1/tssplitter_lite.c:325-383 | the packet loop on a joined input is the loop on its parts one after the other |
| Splitter.CallsJoin | apps/cdev/recpt1/tssplitter_lite.c:302-384 | two calls, each starting afresh, together put out and mark what one call on the joined input does, and the result is that of the last scan |
| Splitter.Splitter.CountUp | apps/cdev/recpt1/tssplitter_lite.c:331-341 | the stored table is the next one in the sequence |
| Splitter.Splitter.SplitTs | apps/cdev/recpt1/tssplitter_lite.c:302-384 | the buffer holds the packets of the output, whole and no more than the input; a negative size is an error and changes nothing |
| Restamp.PtsDiffIs | apps/dvb/cmds/restamp.c:14-21 | the difference on the circle, and where the 64-bit word wraps |
| Restamp.PcrIsClose | apps/dvb/cmds/restamp.c:169-191 | a reference put out stays within the threshold of the one before if and only if its repair does not leave the word |
| Restamp.RunIsSmooth | apps/dvb/cmds/restamp.c:154-329 | over every run of references and PES stamps no two references in a row are further apart than the threshold, if and only if no repair leaves the word |
| Restamp.ShortRunIsSmooth | apps/dvb/cmds/restamp.c:119-329 | from the start that holds for any seven million references and stamps |
| Restamp.OffsetMaps | apps/dvb/cmds/restamp.c:184-185 | the new offset maps the stamp to its repaired place |
| Restamp.Steady | apps/dvb/cmds/restamp.c:169-170 | with an unchanged offset output differences are input differences on the circle, if and only if the subtraction wraps for both stamps or for neither |
| Restamp.PcrReadsBack | apps/dvb/cmds/restamp.c:193-202 | a written reference reads back as its value on the circle; five of the six reserved bits are set |
| Restamp.PtsReadsBack | apps/dvb/cmds/restamp.c:37-54 | a written stamp reads back modulo 2^33, with its other bits kept and its marker bits set |
| Restamp.PcrLayout | apps/dvb/cmds/restamp.c:23-35 | of the six bytes as one number the first 33 bits are the base and the last nine the extension |
| Restamp.PtsLayout | apps/dvb/cmds/restamp.c:37-43 | a stamp is three, fifteen and fifteen bits with a marker bit behind each |
| TsHeader.RestampReads | apps/dvb/cmds/restamp.c:149-169 | for every header: the PID, which packets are passed on, and where the reference and the payload are |
| TsHeader.RestampReadsPes | apps/dvb/cmds/restamp.c:205-219 | a PES header is found exactly behind a start, with its start code and a stream that is handled |
| TsHeader.StampFlagsRead | apps/dvb/cmds/restamp.c:225-284 | the two upper bits of the flags tell which stamps there are |
| Restamp.Restamper.PcrPart | apps/dvb/cmds/restamp.c:153-203 | the reference of a packet is read, retimed and written in place; a second programme stops it unless forced |
| Restamp.Restamper.PesPart | apps/dvb/cmds/restamp.c:205-306 | both stamps of a PES header are retimed in place with their stream's previous stamp |
| Restamp.Restamper.Packet | apps/dvb/cmds/restamp.c:149-306 | one turn of the main loop does the operations of its packet |
| RestampOut.PacketMoves | apps/dvb/cmds/restamp.c:149-306 | the stamps read in the output packet are those of the input moved by the offset, or one step after the previous one where that is a jump; every other byte is as it was |
| RestampOut.StreamMoves | apps/dvb/cmds/restamp.c:103-306 | so for every packet of every stream, each from the state the one before left |
| Restamp.StreamReads | apps/dvb/cmds/restamp.c:149-306 | the references read from the output stream are the ones computed |
| Restamp.StreamIsSmooth | apps/dvb/cmds/restamp.c:149-306 | they never jump, whatever the input, if and only if no repair leaves the word |
| Restamp.ShortStreamIsSmooth | apps/dvb/cmds/restamp.c:103-306 | for up to seven million references and stamps, in any number of packets, they never jump |
| RestampWrap.Cycle | apps/dvb/cmds/restamp.c:169-191 | from a value two turns up on, the references half a turn, 0 and the last before 0 raise the previous reference by two repairs and a turn less one tick |
| RestampWrap.WrapIsReached | apps/dvb/cmds/restamp.c:119-191 | from the start fewer than 24 million legal references lead to a repair that leaves the word, and to a jump |
| RestampWrap.SomeStreamJumps | apps/dvb/cmds/restamp.c:103-203 | a stream of as many packets whose output references jump |
| Pll.EstimateIsLow | drivers/media/tuners/tda2014x.c:75-81 | the shift-and-add estimate is never high and low by at most one up to 2^34 |
| Pll.Div10 | drivers/media/tuners/tda2014x.c:71-85 | division by a power of ten, exact below 2^34 and low by at most nine below 2^38 |
| Pll.Search | drivers/media/tuners/tda2014x.c:152-179 | the search with its jump comes to the dividers of a fixed list of ranges, and the ratio it checks lies in 131 to 251 |
| Pll.ChoicePrefers | drivers/media/tuners/tda2014x.c:152-179 | the dividers found suit the ratio, and the reference is divided by three only if no others do |
| Pll.DividerFits | drivers/media/tuners/tda2014x.c:130-149 | the output divider is the largest from 5 to 8 that keeps the oscillator within 8600 MHz, the frequency taken up to a whole MHz, and 4 if none does |
| Pll.Scale | drivers/media/tuners/tda2014x.c:180-197 | the default case is never reached and the ratio is scaled by the dividers |
| Pll.Fraction | drivers/media/tuners/tda2014x.c:202-210 | the sixteen bits of the fraction are exact, though digits are cut off on the way |
| Pll.Tune | drivers/media/tuners/tda2014x.c:149-220 | it fails exactly when no dividers fit; else the integer part less 128 is in 3 to 123 and the ratio is the wanted one, less than two units of 2^-16 high |
| Pll.RatioIsAccurate | drivers/media/tuners/tda2014x.c:130-220 | in terms of the frequency, the 27 MHz crystal and the largest output divider within 8600 MHz |
| Pll.Tunable | drivers/media/tuners/tda2014x.c:149-179 | accepted are exactly 297000 to 3401999 and 3537000 to 6803999 kHz below 2^30, and what they become beyond |
| RecorderQueue.RunConserves | apps/cdev/recpt1/recpt1.c:162-253 | under every interleaving of critical sections what came out and what is held is what went in, in order, and the queue never overflows |
| RecorderQueue.AfterConserves | apps/cdev/recpt1/recpt1.c:172-190 | that holds across waits, and the last try sets the flag |
| RecorderQueue.CallEnds | apps/cdev/recpt1/recpt1.c:172-190 | every call ends after at most 61 waits, in one way and no other |
| RecorderQueue.GivesUpLast | apps/cdev/recpt1/recpt1.c:172-190 | unless somebody else sets the flag a call gives up if and only if it is still not ready after 61 waits |
| RecorderQueue.DropsWithRoom | apps/cdev/recpt1/recpt1.c:172-190 | a buffer dropped while the queue is empty |
| RecorderQueue.GivesUpUnready | apps/cdev/recpt1/recpt1.c:172-234 | a call that gives up leaves the queue full, or empty, if and only if as many buffers went in as came out in its last wait |
| RecorderQueue.ReadyOnEntry | apps/cdev/recpt1/recpt1.c:172-234 | a call waits if and only if the queue is not ready on entry, and one that need not wait never gives up |
| RecorderQueue.WindowPut | apps/cdev/recpt1/recpt1.c:192-200 | storing at the input index appends to the contents of the ring |
| RecorderQueue.WindowTake | apps/cdev/recpt1/recpt1.c:238-247 | moving the output index on removes the oldest |
| RecorderQueue.Queue.Put | apps/cdev/recpt1/recpt1.c:192-200 | a buffer goes in at the end, and the counters and indices stay consistent |
| RecorderQueue.Queue.Take | apps/cdev/recpt1/recpt1.c:238-247 | the oldest buffer comes out |
| RecorderQueue.Queue.Enqueue | apps/cdev/recpt1/recpt1.c:162-204 | it drops the buffer if and only if it waited and finds the flag set; otherwise the buffer goes in |
| RecorderQueue.Queue.Dequeue | apps/cdev/recpt1/recpt1.c:207-253 | it returns nothing if and only if it waited and finds the flag set; otherwise the oldest buffer |
| Gray.Decoded | drivers/video/pt3_dtv.c:2400-2415 | decoding undoes encoding |
| Gray.Encoded | drivers/video/pt3_dtv.c:2400-2415 | encoding undoes decoding |
| Gray.EncodeShift | drivers/video/pt3_dtv.c:2400-2415 | the code is the exclusive or of the number with itself shifted right, bit by bit |
| Gray.SameWidth | drivers/video/pt3_dtv.c:2400-2415 | code and number have the same width |
| Gray.Gray2Binary | drivers/video/pt3_dtv.c:2400-2415 | the loops find the one number of that width whose code is given |

## Left out

- TsRing.Ring.Session: the FPGA does not enter the block the reader still owns; what an overrun delivers is not modelled.
- TsRing.Ring.Copy: blocks have one size, and a copy together with handing its block back is one step; the mode that does not look for the sentinel, and may return what is not yet written, is not modelled.
- TsRing.Ring.ThreadTurn: the demultiplexer it calls is not part of this model.
- DmaDescriptors.DescPages.Build: descriptor pages have one size and lie in one array in page order; bus addresses are not bounded to 64 bits.
- Pxq3pe.Card.Run: an interrupt, a read and a turn of a thread are each one step, so races between them are not modelled; the check of the interrupt registers is left out.
- I2cProgram.Bus.Read: its instructions only; where the bytes read are stored is left out.
- I2cProgram.Bus.TcRead: its instructions only, for the same reason.
- I2cProgram.Bus.Add: a program longer than the buffer is described only up to the instruction that overflows it.
- I2cProgram.Xfer.Run: the flush is a parameter, with the bytes the board then holds.
- Pat.Prescan: the section lies in its packet; the code reads on behind it otherwise.
- Pat.RecreatePat: the chosen services fit its buffer, which is not always so (`PatSize.MayNotFit`); how the service list picks them is a parameter.
- FixPat.RewritePat: the search ends inside the packet; the code reads on behind it otherwise.
- Splitter.Splitter.SplitTs: the input is whole packets, and whether the PIDs are scanned again and what that leaves marked is a parameter.
- Restamp.Restamper.PesPart: the stamps lie in the packet, and the steps found in the frame headers are parameters; the three streams whose previous stamp `main` leaves uninitialised start with a value here, and are never checked for jumps.
- Restamp.Restamper.Packet: the stamps lie in the packet; the code reads and writes behind it otherwise.
- Restamp.StreamReads: the stamps lie in their packets.
- Restamp.StreamIsSmooth: the stamps lie in their packets.
- Restamp.ShortStreamIsSmooth: the stamps lie in their packets; a bound for a program that has none, where `Restamp.StreamIsSmooth` has none.
- SectionLoss.LossOnlyOmits: no section starts in the last two bytes of a packet and no packet is sent twice; 16 lost packets in a row leave the count as it was.
- SectionStream.RoundTrip: no packet is sent twice; `SectionRepeat.RoundTripRepeated` says when one may be.
- Gray.Gray2Binary: words with bits above the given width, which its one caller never passes.
- ESCR rewriting in `restamp.c`, and `fixpcr.c`: they do not feed the clock references.
- `AnalyzePmt`, `ReadTs`, the inside of `RescanPID` and the matching of service names in `AnalyzePat`.
- Probe, remove, registers, sleeps, mutexes and kernel threads: hardware and kernel interfaces.
- Register tables of demodulators and tuners, channel and frequency maps, all of `em28xx`: constants without a property of their own.
- The command line, signals, UDP, B25 decoding and channel scanning of the tools.
- The ARIB string decoder and the `mmap` variant of the table rewriter.
